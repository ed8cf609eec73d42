/**
 The per-peer catalogue limiters (src/catalogue_rate_limits.rs): sliding windows kept in purged deques,
 compared with the same decisions taken from each peer's complete log.
 */
module PeerLimiter {
  type Peer = string

  /** One recorded request, response or malformed request; only responses have bytes. */
  datatype Mark = Mark(at: int, bytes: nat)

  datatype Window = Window(requests: seq<Mark>, responses: seq<Mark>, invalid: seq<Mark>)

  const Blank: Window := Window([], [], [])

  datatype Config = Config(maxRequests: nat, maxBytes: nat, maxInvalid: nat, span: nat)

  datatype Answer = Allowed | RateLimited | ResponseBudgetExceeded | Blocked | Recorded | Unblocked(bool)

  datatype Op =
    | Admit(peer: Peer, now: int)
    | RecordBytes(peer: Peer, now: int, bytes: nat)
    | RecordInvalid(peer: Peer, now: int)
    | Reset(peer: Peer)

  function AtLeastOne(n: nat): nat { if n == 0 then 1 else n }

  function Sum(s: seq<Mark>): nat { if s == [] then 0 else Sum(s[..|s| - 1]) + s[|s| - 1].bytes }

  // ---- What the code does ----

  /** Pop from the front while older than the cutoff. */
  function DropOld(s: seq<Mark>, cutoff: int): seq<Mark> {
    if s != [] && s[0].at < cutoff then DropOld(s[1..], cutoff) else s
  }

  function Purged(w: Window, cutoff: int): Window {
    Window(DropOld(w.requests, cutoff), DropOld(w.responses, cutoff), DropOld(w.invalid, cutoff))
  }

  function Verdict(c: Config, w: Window): Answer {
    if |w.invalid| >= c.maxInvalid then Blocked
    else if Sum(w.responses) >= c.maxBytes then ResponseBudgetExceeded
    else if |w.requests| >= c.maxRequests then RateLimited
    else Allowed
  }

  /** One call on the window of its own peer. */
  function Step(c: Config, w: Window, op: Op): (Window, Answer) {
    match op
    case Admit(_, now) =>
      var p := Purged(w, now - c.span);
      if Verdict(c, p).Allowed? then (p.(requests := p.requests + [Mark(now, 0)]), Allowed) else (p, Verdict(c, p))
    case RecordBytes(_, now, bytes) =>
      if bytes == 0 then (w, Recorded)
      else
        var p := Purged(w, now - c.span);
        (p.(responses := p.responses + [Mark(now, bytes)]), Recorded)
    case RecordInvalid(_, now) =>
      var p := Purged(w, now - c.span);
      (p.(invalid := p.invalid + [Mark(now, 0)]), Unblocked(|p.invalid| + 1 <= c.maxInvalid))
    case Reset(_) => (Blank, Recorded)
  }

  type Windows = map<Peer, Window>

  function Get(ws: Windows, p: Peer): Window { if p in ws then ws[p] else Blank }

  function Run(c: Config, ws: Windows, ops: seq<Op>): Windows {
    if ops == [] then ws
    else
      var before := Run(c, ws, ops[..|ops| - 1]);
      var op := ops[|ops| - 1];
      before[op.peer := Step(c, Get(before, op.peer), op).0]
  }

  /** The answer to a call made after `ops`. */
  function AnswerTo(c: Config, ops: seq<Op>, op: Op): Answer {
    Step(c, Get(Run(c, map[], ops), op.peer), op).1
  }

  method PurgeQueue(s: seq<Mark>, cutoff: int) returns (r: seq<Mark>)
    ensures r == DropOld(s, cutoff)
  {
    r := s;
    while |r| > 0 && r[0].at < cutoff
      invariant DropOld(r, cutoff) == DropOld(s, cutoff)
    {
      r := r[1..];
    }
  }

  class PeerCatalogueAbuseLimiter {
    var windows: Windows
    const config: Config

    constructor (c: Config)
      ensures windows == map[]
      ensures config == Config(AtLeastOne(c.maxRequests), AtLeastOne(c.maxBytes), AtLeastOne(c.maxInvalid), c.span)
    {
      windows := map[];
      config := Config(AtLeastOne(c.maxRequests), AtLeastOne(c.maxBytes), AtLeastOne(c.maxInvalid), c.span);
    }

    method Purge(w: Window, cutoff: int) returns (r: Window)
      ensures r == Purged(w, cutoff)
    {
      var requests := PurgeQueue(w.requests, cutoff);
      var responses := PurgeQueue(w.responses, cutoff);
      var invalid := PurgeQueue(w.invalid, cutoff);
      r := Window(requests, responses, invalid);
    }

    method AdmitRequest(peer: Peer, now: int) returns (answer: Answer)
      modifies this
      ensures windows == old(windows)[peer := Step(config, Get(old(windows), peer), Admit(peer, now)).0]
      ensures answer == Step(config, Get(old(windows), peer), Admit(peer, now)).1
    {
      var w := Purge(Get(windows, peer), now - config.span);
      answer := Verdict(config, w);
      if answer == Allowed {
        w := w.(requests := w.requests + [Mark(now, 0)]);
      }
      windows := windows[peer := w];
    }

    method RecordResponseBytes(peer: Peer, now: int, bytes: nat)
      modifies this
      ensures Get(windows, peer) == Step(config, Get(old(windows), peer), RecordBytes(peer, now, bytes)).0
      ensures forall q | q != peer :: Get(windows, q) == Get(old(windows), q)
    {
      if bytes == 0 {
        return;
      }
      var w := Purge(Get(windows, peer), now - config.span);
      windows := windows[peer := w.(responses := w.responses + [Mark(now, bytes)])];
    }

    method RecordMalformed(peer: Peer, now: int) returns (unblocked: bool)
      modifies this
      ensures windows == old(windows)[peer := Step(config, Get(old(windows), peer), RecordInvalid(peer, now)).0]
      ensures Unblocked(unblocked) == Step(config, Get(old(windows), peer), RecordInvalid(peer, now)).1
    {
      var w := Purge(Get(windows, peer), now - config.span);
      w := w.(invalid := w.invalid + [Mark(now, 0)]);
      windows := windows[peer := w];
      unblocked := |w.invalid| <= config.maxInvalid;
    }

    method ResetPeer(peer: Peer)
      modifies this
      ensures Get(windows, peer) == Blank && forall q | q != peer :: Get(windows, q) == Get(old(windows), q)
    {
      windows := windows - {peer};
    }
  }

  // ---- A peer's answers depend on its own calls only ----

  function Own(ops: seq<Op>, p: Peer): seq<Op> {
    if ops == [] then []
    else
      var rest := Own(ops[..|ops| - 1], p);
      if ops[|ops| - 1].peer == p then rest + [ops[|ops| - 1]] else rest
  }

  lemma {:induction false} OwnCallsDecide(c: Config, ops: seq<Op>, p: Peer)
    ensures Get(Run(c, map[], ops), p) == Get(Run(c, map[], Own(ops, p)), p)
  {
    if ops != [] {
      var n := |ops| - 1;
      OwnCallsDecide(c, ops[..n], p);
      var rest := Own(ops[..n], p);
      assert (rest + [ops[n]])[..|rest|] == rest;
      hide Step;
    }
  }

  /** Every answer to a peer is the answer it would get if no other peer existed. */
  lemma PeersDoNotInterfere(c: Config, ops: seq<Op>, op: Op)
    ensures AnswerTo(c, ops, op) == AnswerTo(c, Own(ops, op.peer), op)
  {
    OwnCallsDecide(c, ops, op.peer);
  }

  // ---- Decisions from the complete log ----

  /** The marks not older than the cutoff. */
  function Since(s: seq<Mark>, cutoff: int): seq<Mark> {
    if s == [] then []
    else if s[|s| - 1].at >= cutoff then Since(s[..|s| - 1], cutoff) + [s[|s| - 1]]
    else Since(s[..|s| - 1], cutoff)
  }

  function Recent(log: Window, cutoff: int): Window {
    Window(Since(log.requests, cutoff), Since(log.responses, cutoff), Since(log.invalid, cutoff))
  }

  /** The reference limiter: it keeps everything since the last reset and looks at the window when asked. */
  function LogStep(c: Config, log: Window, op: Op): (Window, Answer) {
    match op
    case Admit(_, now) =>
      var answer := Verdict(c, Recent(log, now - c.span));
      (if answer.Allowed? then log.(requests := log.requests + [Mark(now, 0)]) else log, answer)
    case RecordBytes(_, now, bytes) =>
      (if bytes == 0 then log else log.(responses := log.responses + [Mark(now, bytes)]), Recorded)
    case RecordInvalid(_, now) =>
      (log.(invalid := log.invalid + [Mark(now, 0)]),
       Unblocked(|Since(log.invalid, now - c.span)| + 1 <= c.maxInvalid))
    case Reset(_) => (Blank, Recorded)
  }

  function LogRun(c: Config, ops: seq<Op>): Window {
    if ops == [] then Blank else LogStep(c, LogRun(c, ops[..|ops| - 1]), ops[|ops| - 1]).0
  }

  /** Call times never go back. */
  ghost predicate InOrder(ops: seq<Op>) {
    forall i, j | 0 <= i < j < |ops| && !ops[i].Reset? && !ops[j].Reset? :: ops[i].now <= ops[j].now
  }

  // The clock is read before the lock is taken, so racing calls may be recorded with times that go back.

  /** Calls of `p` are recorded at most `d` late: an earlier one is at most `d` ahead of a later one. */
  ghost predicate LateBy(ops: seq<Op>, p: Peer, d: nat) {
    forall i, j | 0 <= i < j < |ops| && !ops[i].Reset? && !ops[j].Reset? && ops[i].peer == p == ops[j].peer ::
      ops[i].now <= ops[j].now + d
  }

  ghost predicate Ordered(s: seq<Mark>, last: int) {
    && (forall i, j | 0 <= i < j < |s| :: s[i].at <= s[j].at)
    && (forall i | 0 <= i < |s| :: s[i].at <= last)
  }

  lemma {:induction false} SinceAll(s: seq<Mark>, cutoff: int)
    requires forall i | 0 <= i < |s| :: s[i].at >= cutoff
    ensures Since(s, cutoff) == s
  {
    if s != [] { SinceAll(s[..|s| - 1], cutoff); }
  }

  lemma {:induction false} SinceFront(s: seq<Mark>, cutoff: int)
    requires s != []
    ensures Since(s, cutoff) == (if s[0].at >= cutoff then [s[0]] else []) + Since(s[1..], cutoff)
  {
    if |s| == 1 {
      assert s[..0] == [] && s[1..] == [];
    } else {
      var n := |s| - 1;
      SinceFront(s[..n], cutoff);
      assert s[..n][1..] == s[1..][..n - 1];
    }
  }

  lemma {:induction false} DropOldIsSince(s: seq<Mark>, cutoff: int, last: int)
    requires Ordered(s, last)
    ensures DropOld(s, cutoff) == Since(s, cutoff)
  {
    if s != [] {
      SinceFront(s, cutoff);
      if s[0].at < cutoff {
        DropOldIsSince(s[1..], cutoff, last);
      } else {
        SinceAll(s, cutoff);
      }
    }
  }

  lemma {:induction false} SinceSince(s: seq<Mark>, a: int, b: int)
    requires a <= b
    ensures Since(Since(s, a), b) == Since(s, b)
    ensures |Since(s, b)| <= |Since(s, a)|
  {
    if s != [] {
      var n := |s| - 1;
      SinceSince(s[..n], a, b);
      if s[n].at >= a {
        assert (Since(s[..n], a) + [s[n]])[..|Since(s[..n], a)|] == Since(s[..n], a);
      }
    }
  }

  lemma {:induction false} SinceHas(s: seq<Mark>, cutoff: int, m: Mark)
    ensures m in Since(s, cutoff) <==> m in s && m.at >= cutoff
  {
    if s != [] {
      SinceHas(s[..|s| - 1], cutoff, m);
      assert s == s[..|s| - 1] + [s[|s| - 1]];
    }
  }

  lemma {:induction false} SinceOrdered(s: seq<Mark>, cutoff: int, last: int)
    requires Ordered(s, last)
    ensures Ordered(Since(s, cutoff), last)
  {
    if s != [] {
      var n := |s| - 1;
      SinceOrdered(s[..n], cutoff, last);
      forall m | m in Since(s[..n], cutoff)
        ensures m.at <= s[n].at
      {
        SinceHas(s[..n], cutoff, m);
      }
    }
  }

  /** A deque is the part of its log not older than the cutoff. */
  ghost predicate Tracks(queue: seq<Mark>, log: seq<Mark>, cutoff: int, last: int) {
    queue == Since(log, cutoff) && Ordered(log, last)
  }

  lemma PurgeTracks(queue: seq<Mark>, log: seq<Mark>, a: int, b: int, last: int, now: int)
    requires Tracks(queue, log, a, last) && a <= b && last <= now
    ensures Tracks(DropOld(queue, b), log, b, now)
  {
    SinceOrdered(log, a, last);
    DropOldIsSince(Since(log, a), b, last);
    SinceSince(log, a, b);
  }

  lemma PushTracks(queue: seq<Mark>, log: seq<Mark>, cutoff: int, m: Mark)
    requires Tracks(queue, log, cutoff, m.at) && cutoff <= m.at
    ensures Tracks(queue + [m], log + [m], cutoff, m.at)
  {
    assert (log + [m])[..|log|] == log;
  }

  /** The purged window is the recent part of the log. */
  ghost predicate Simulates(c: Config, w: Window, log: Window, last: int) {
    && Tracks(w.requests, log.requests, last - c.span, last)
    && Tracks(w.responses, log.responses, last - c.span, last)
    && Tracks(w.invalid, log.invalid, last - c.span, last)
  }

  /** Resets and responses of no bytes purge nothing. */
  predicate Purges(op: Op) { !op.Reset? && !(op.RecordBytes? && op.bytes == 0) }

  /** Purging brings the simulation up to the time of the call, and both limiters look at the same window. */
  lemma PurgeSimulates(c: Config, w: Window, log: Window, now: int, last: int)
    requires Simulates(c, w, log, last) && last <= now
    ensures Simulates(c, Purged(w, now - c.span), log, now)
    ensures Purged(w, now - c.span) == Recent(log, now - c.span)
  {
    var a, b := last - c.span, now - c.span;
    PurgeTracks(w.requests, log.requests, a, b, last, now);
    PurgeTracks(w.responses, log.responses, a, b, last, now);
    PurgeTracks(w.invalid, log.invalid, a, b, last, now);
    hide Since, DropOld, Ordered;
  }

  lemma AdmitRefines(c: Config, w: Window, log: Window, peer: Peer, now: int)
    requires Simulates(c, Purged(w, now - c.span), log, now) && Purged(w, now - c.span) == Recent(log, now - c.span)
    ensures Step(c, w, Admit(peer, now)).1 == LogStep(c, log, Admit(peer, now)).1
    ensures Simulates(c, Step(c, w, Admit(peer, now)).0, LogStep(c, log, Admit(peer, now)).0, now)
  {
    hide Tracks, Purged, Recent, Verdict;
    PushTracks(Purged(w, now - c.span).requests, log.requests, now - c.span, Mark(now, 0));
  }

  lemma BytesRefine(c: Config, w: Window, log: Window, peer: Peer, now: int, bytes: nat)
    requires Simulates(c, Purged(w, now - c.span), log, now) && bytes > 0
    ensures var op := RecordBytes(peer, now, bytes);
      Simulates(c, Step(c, w, op).0, LogStep(c, log, op).0, now)
  {
    hide Tracks, Purged, Recent;
    PushTracks(Purged(w, now - c.span).responses, log.responses, now - c.span, Mark(now, bytes));
  }

  lemma InvalidRefines(c: Config, w: Window, log: Window, peer: Peer, now: int)
    requires Simulates(c, Purged(w, now - c.span), log, now) && Purged(w, now - c.span) == Recent(log, now - c.span)
    ensures Step(c, w, RecordInvalid(peer, now)).1 == LogStep(c, log, RecordInvalid(peer, now)).1
    ensures Simulates(c, Step(c, w, RecordInvalid(peer, now)).0, LogStep(c, log, RecordInvalid(peer, now)).0, now)
  {
    hide Tracks, Purged, Since;
    PushTracks(Purged(w, now - c.span).invalid, log.invalid, now - c.span, Mark(now, 0));
  }

  /** Resets and responses of no bytes leave the purge time as it was. */
  lemma IdleRefines(c: Config, w: Window, log: Window, op: Op, last: int)
    requires Simulates(c, w, log, last) && !Purges(op)
    ensures Step(c, w, op).1 == LogStep(c, log, op).1
    ensures Simulates(c, Step(c, w, op).0, LogStep(c, log, op).0, last)
  {
  }

  /** One call keeps the simulation, and both limiters give the same answer. */
  lemma StepRefines(c: Config, w: Window, log: Window, op: Op, last: int)
    requires Simulates(c, w, log, last) && (op.Reset? || last <= op.now)
    ensures Step(c, w, op).1 == LogStep(c, log, op).1
    ensures Simulates(c, Step(c, w, op).0, LogStep(c, log, op).0, if Purges(op) then op.now else last)
  {
    hide Simulates, Purged, Verdict, Recent, Since;
    if Purges(op) {
      PurgeSimulates(c, w, log, op.now, last);
      match op {
        case Admit(peer, now) => AdmitRefines(c, w, log, peer, now);
        case RecordBytes(peer, now, bytes) => BytesRefine(c, w, log, peer, now, bytes);
        case RecordInvalid(peer, now) => InvalidRefines(c, w, log, peer, now);
      }
    } else {
      hide Step, LogStep;
      IdleRefines(c, w, log, op, last);
    }
  }

  /** The time the deques were last purged at. */
  function LastNow(ops: seq<Op>, start: int): int {
    if ops == [] then start
    else if Purges(ops[|ops| - 1]) then ops[|ops| - 1].now
    else LastNow(ops[..|ops| - 1], start)
  }

  lemma {:induction false} LastNowBound(ops: seq<Op>, start: int, now: int)
    requires start <= now && forall i | 0 <= i < |ops| && !ops[i].Reset? :: ops[i].now <= now
    ensures LastNow(ops, start) <= now
  {
    if ops != [] { LastNowBound(ops[..|ops| - 1], start, now); }
  }

  /** Along one peer's calls, with a clock that never goes back, the deques are the complete log cut to the window. */
  lemma {:induction false} WindowIsRecentLog(c: Config, p: Peer, ops: seq<Op>, start: int)
    requires InOrder(ops) && forall i | 0 <= i < |ops| :: ops[i].peer == p && (!ops[i].Reset? ==> start <= ops[i].now)
    ensures Simulates(c, Get(Run(c, map[], ops), p), LogRun(c, ops), LastNow(ops, start))
  {
    if ops != [] {
      var n := |ops| - 1;
      var before, op := ops[..n], ops[n];
      PrefixInOrder(ops);
      hide InOrder, Step, LogStep, Simulates;
      WindowIsRecentLog(c, p, before, start);
      if !op.Reset? {
        LastNowBound(before, start, op.now);
      }
      StepRefines(c, Get(Run(c, map[], before), p), LogRun(c, before), op, LastNow(before, start));
    }
  }

  lemma PrefixInOrder(ops: seq<Op>)
    requires InOrder(ops) && ops != []
    ensures InOrder(ops[..|ops| - 1])
    ensures var last := ops[|ops| - 1];
      !last.Reset? ==> forall i | 0 <= i < |ops| - 1 && !ops[i].Reset? :: ops[i].now <= last.now
  {
  }

  ghost predicate NotBefore(ops: seq<Op>, start: int) {
    forall i | 0 <= i < |ops| && !ops[i].Reset? :: start <= ops[i].now
  }

  lemma {:induction false} SomeStart(ops: seq<Op>) returns (start: int)
    ensures NotBefore(ops, start)
  {
    start := 0;
    if ops != [] {
      var n := |ops| - 1;
      start := SomeStart(ops[..n]);
      if !ops[n].Reset? && ops[n].now < start {
        start := ops[n].now;
      }
    }
  }

  /** With a clock that never goes back every answer is what the reference limiter gives from the complete log. */
  lemma AnswersFromFullLog(c: Config, ops: seq<Op>, op: Op)
    requires LateBy(ops + [op], op.peer, 0)
    ensures AnswerTo(c, ops, op) == LogStep(c, LogRun(c, Own(ops, op.peer)), op).1
  {
    var own := Own(ops, op.peer);
    var start := SomeStart(ops + [op]);
    OwnInOrder(ops, op, start);
    PeersDoNotInterfere(c, ops, op);
    WindowIsRecentLog(c, op.peer, own, start);
    if !op.Reset? {
      LastNowBound(own, start, op.now);
    }
    hide Step, LogStep, Simulates, InOrder, LateBy, Own, Run, LogRun;
    StepRefines(c, Get(Run(c, map[], own), op.peer), LogRun(c, own), op, LastNow(own, start));
  }

  lemma {:induction false} OwnInOrder(ops: seq<Op>, op: Op, start: int)
    requires LateBy(ops + [op], op.peer, 0) && NotBefore(ops + [op], start)
    ensures var own := Own(ops, op.peer);
      && InOrder(own) && (!op.Reset? ==> start <= op.now)
      && forall i | 0 <= i < |own| ::
           && own[i].peer == op.peer && (!own[i].Reset? ==> start <= own[i].now)
           && (!own[i].Reset? && !op.Reset? ==> own[i].now <= op.now)
  {
    var all := ops + [op];
    assert all[|ops|] == op;
    forall i | 0 <= i < |ops|
      ensures all[i] == ops[i]
      ensures !ops[i].Reset? ==> start <= ops[i].now
      ensures !ops[i].Reset? && ops[i].peer == op.peer ==> (!op.Reset? ==> ops[i].now <= op.now)
    {
    }
    assert LateBy(ops, op.peer, 0);
    OwnSublist(ops, op.peer);
  }

  /** The peer's own calls, in the order they were made. */
  lemma {:induction false} OwnSublist(ops: seq<Op>, p: Peer)
    ensures forall x | x in Own(ops, p) :: x in ops && x.peer == p
    ensures LateBy(ops, p, 0) ==> InOrder(Own(ops, p))
  {
    if ops != [] {
      var n := |ops| - 1;
      OwnSublist(ops[..n], p);
      assert LateBy(ops, p, 0) ==> LateBy(ops[..n], p, 0);
    }
  }

  // ---- The rate bound ----

  /** Allowed requests of a closed window. */
  function CountIn(s: seq<Mark>, from: int, to: int): nat {
    if s == [] then 0
    else CountIn(s[..|s| - 1], from, to) + if from <= s[|s| - 1].at <= to then 1 else 0
  }

  /** The requests of `p` that were answered "allowed" since its last reset. */
  function AllowedLog(c: Config, ops: seq<Op>, p: Peer): seq<Mark> {
    if ops == [] then []
    else
      var before, op := ops[..|ops| - 1], ops[|ops| - 1];
      if op.peer != p then AllowedLog(c, before, p)
      else if op.Reset? then []
      else if op.Admit? && AnswerTo(c, before, op) == Allowed then AllowedLog(c, before, p) + [Mark(op.now, 0)]
      else AllowedLog(c, before, p)
  }

  /** Those with times from `from` to `to`. */
  function AllowedIn(c: Config, ops: seq<Op>, p: Peer, from: int, to: int): nat {
    CountIn(AllowedLog(c, ops, p), from, to)
  }

  /** With a clock that never goes back, the log of the reference limiter is the list of requests the code allowed. */
  lemma {:induction false} LogHoldsAllowed(c: Config, ops: seq<Op>, p: Peer)
    requires LateBy(ops, p, 0)
    ensures AllowedLog(c, ops, p) == LogRun(c, Own(ops, p)).requests
  {
    if ops != [] {
      var n := |ops| - 1;
      var before, op := ops[..n], ops[n];
      assert LateBy(before, p, 0);
      hide LateBy, AnswerTo, LogStep;
      LogHoldsAllowed(c, before, p);
      if op.peer == p {
        assert before + [op] == ops;
        AnswersFromFullLog(c, before, op);
        var own := Own(before, p);
        assert (own + [op])[..|own|] == own;
        LogStepRequests(c, LogRun(c, own), op);
      }
    }
  }

  lemma LogStepRequests(c: Config, log: Window, op: Op)
    ensures LogStep(c, log, op).0.requests ==
      if op.Reset? then []
      else if op.Admit? && LogStep(c, log, op).1 == Allowed then log.requests + [Mark(op.now, 0)]
      else log.requests
  {
    hide Verdict, Recent;
  }

  /** Some call of `p` came so late that `m` was no longer in its window. */
  ghost predicate Outdated(c: Config, ops: seq<Op>, p: Peer, m: Mark) {
    exists k | 0 <= k < |ops| :: ops[k].peer == p && !ops[k].Reset? && m.at < ops[k].now - c.span
  }

  /** The deque is the end of the log, and everything popped was outdated. */
  ghost predicate Kept(c: Config, ops: seq<Op>, p: Peer, log: seq<Mark>, queue: seq<Mark>) {
    && |queue| <= |log| && log[|log| - |queue|..] == queue
    && forall i | 0 <= i < |log| - |queue| :: Outdated(c, ops, p, log[i])
  }

  lemma OutdatedGrows(c: Config, ops: seq<Op>, op: Op, p: Peer, m: Mark)
    requires Outdated(c, ops, p, m)
    ensures Outdated(c, ops + [op], p, m)
  {
    var k :| 0 <= k < |ops| && ops[k].peer == p && !ops[k].Reset? && m.at < ops[k].now - c.span;
    assert (ops + [op])[k] == ops[k];
  }

  /** Popping leaves an end of the deque. */
  lemma {:induction false} DropOldEnd(s: seq<Mark>, cutoff: int)
    ensures var r := DropOld(s, cutoff);
      && |r| <= |s| && s[|s| - |r|..] == r && (forall i | 0 <= i < |s| - |r| :: s[i].at < cutoff)
      && (r != [] ==> r[0].at >= cutoff)
  {
    if s != [] && s[0].at < cutoff {
      DropOldEnd(s[1..], cutoff);
    }
  }

  lemma KeptGrows(c: Config, ops: seq<Op>, op: Op, p: Peer, log: seq<Mark>, queue: seq<Mark>)
    requires Kept(c, ops, p, log, queue)
    ensures Kept(c, ops + [op], p, log, queue)
  {
    forall i | 0 <= i < |log| - |queue|
      ensures Outdated(c, ops + [op], p, log[i])
    {
      OutdatedGrows(c, ops, op, p, log[i]);
    }
  }

  lemma KeptPurges(c: Config, ops: seq<Op>, op: Op, p: Peer, log: seq<Mark>, queue: seq<Mark>)
    requires Kept(c, ops, p, log, queue) && op.peer == p && !op.Reset?
    ensures Kept(c, ops + [op], p, log, DropOld(queue, op.now - c.span))
  {
    KeptGrows(c, ops, op, p, log, queue);
    DropOldEnd(queue, op.now - c.span);
    var r, n := DropOld(queue, op.now - c.span), |log| - |queue|;
    hide DropOld;
    forall i | 0 <= i < |log| - |r|
      ensures Outdated(c, ops + [op], p, log[i])
    {
      if i >= n {
        assert queue[i - n] == log[i];
        assert (ops + [op])[|ops|] == op;
      }
    }
  }

  lemma KeptPushes(c: Config, ops: seq<Op>, p: Peer, log: seq<Mark>, queue: seq<Mark>, m: Mark)
    requires Kept(c, ops, p, log, queue)
    ensures Kept(c, ops, p, log + [m], queue + [m])
  {
    hide Outdated;
    assert forall i | 0 <= i < |log| :: (log + [m])[i] == log[i];
  }

  lemma StepRequests(c: Config, w: Window, op: Op)
    requires !op.Reset?
    ensures Step(c, w, op).0.requests ==
      if !Purges(op) then w.requests
      else if op.Admit? && Step(c, w, op).1 == Allowed then DropOld(w.requests, op.now - c.span) + [Mark(op.now, 0)]
      else DropOld(w.requests, op.now - c.span)
  {
    hide DropOld, Verdict;
  }

  /** In every run, whatever the clock does, only marks outdated by some call are missing from the deque. */
  lemma {:induction false} DequeIsEndOfLog(c: Config, ops: seq<Op>, p: Peer)
    ensures Kept(c, ops, p, AllowedLog(c, ops, p), Get(Run(c, map[], ops), p).requests)
  {
    if ops != [] {
      hide Kept, Step;
      var n := |ops| - 1;
      var before, op := ops[..n], ops[n];
      DequeIsEndOfLog(c, before, p);
      assert ops == before + [op];
      var log, w := AllowedLog(c, before, p), Get(Run(c, map[], before), p);
      KeptGrows(c, before, op, p, log, w.requests);
      if op.peer == p {
        if op.Reset? {
          NothingKept(c, ops, op, p, w);
        } else {
          StepRequests(c, w, op);
          KeptPurges(c, before, op, p, log, w.requests);
          KeptPushes(c, ops, p, log, DropOld(w.requests, op.now - c.span), Mark(op.now, 0));
        }
      }
    } else {
      assert Kept(c, [], p, [], []);
    }
  }

  lemma NothingKept(c: Config, ops: seq<Op>, op: Op, p: Peer, w: Window)
    requires op.Reset?
    ensures Step(c, w, op).0 == Blank && Kept(c, ops, p, [], [])
  {
  }

  lemma {:induction false} CountSplits(s: seq<Mark>, n: nat, from: int, to: int)
    requires n <= |s| && forall i | 0 <= i < n :: !(from <= s[i].at <= to)
    ensures CountIn(s, from, to) <= |s| - n
  {
    if |s| > n {
      CountSplits(s[..|s| - 1], n, from, to);
    } else if n > 0 {
      CountSplits(s[..n - 1], n - 1, from, to);
    }
  }

  lemma AllowedHasRoom(c: Config, w: Window, op: Op)
    requires op.Admit? && Step(c, w, op).1 == Allowed
    ensures |DropOld(w.requests, op.now - c.span)| < c.maxRequests
  {
    hide DropOld, Sum;
  }

  /** What outdates a mark is at most `d` ahead of the last call. */
  lemma OutdatedIsOld(c: Config, ops: seq<Op>, op: Op, d: nat, m: Mark)
    requires LateBy(ops + [op], op.peer, d) && !op.Reset? && Outdated(c, ops + [op], op.peer, m)
    ensures m.at < op.now + d - c.span
  {
    var p, all := op.peer, ops + [op];
    var k :| 0 <= k < |all| && all[k].peer == p && !all[k].Reset? && m.at < all[k].now - c.span;
    assert all[|ops|] == op;
  }

  /** An allowed request leaves the shortened windows it falls into within the bound. */
  lemma AllowedFits(c: Config, ops: seq<Op>, op: Op, d: nat, from: int)
    requires LateBy(ops + [op], op.peer, d) && op.Admit? && AnswerTo(c, ops, op) == Allowed
    requires from <= op.now <= from + c.span - d
    ensures CountIn(AllowedLog(c, ops, op.peer), from, from + c.span - d) < c.maxRequests
  {
    hide Run, AllowedLog, DropOld, Step, LateBy, Outdated, CountIn;
    var log, w := AllowedLog(c, ops, op.peer), Get(Run(c, map[], ops), op.peer);
    DequeIsEndOfLog(c, ops, op.peer);
    KeptPurges(c, ops, op, op.peer, log, w.requests);
    AllowedHasRoom(c, w, op);
    var n := |log| - |DropOld(w.requests, op.now - c.span)|;
    forall i | 0 <= i < n
      ensures log[i].at < from
    {
      OutdatedIsOld(c, ops, op, d, log[i]);
    }
    CountSplits(log, n, from, from + c.span - d);
  }

  /**
   Between resets no closed window of the configured length, less the time calls are recorded late, holds more
   than `maxRequests` requests of a peer answered "allowed". With a clock that never goes back `d` is zero.
   */
  lemma {:induction false} WindowBound(c: Config, ops: seq<Op>, p: Peer, d: nat, from: int)
    requires LateBy(ops, p, d)
    ensures AllowedIn(c, ops, p, from, from + c.span - d) <= c.maxRequests
  {
    if ops != [] {
      var n := |ops| - 1;
      var before, op := ops[..n], ops[n];
      assert ops == before + [op];
      assert LateBy(before, p, d);
      hide AnswerTo, LateBy, CountIn;
      WindowBound(c, before, p, d, from);
      var log, to := AllowedLog(c, before, p), from + c.span - d;
      if op.Admit? {
        CountSnoc(log, Mark(op.now, 0), from, to);
      }
      CountEmpty(from, to);
      if op.peer == p && op.Admit? && AnswerTo(c, before, op) == Allowed && from <= op.now <= to {
        AllowedFits(c, before, op, d, from);
      }
    }
  }

  lemma CountEmpty(from: int, to: int)
    ensures CountIn([], from, to) == 0
  {
  }

  // ---- Every answer, from the calls alone ----

  /** The malformed requests of `p` since its last reset, not older than `cutoff`. */
  function MalformedSince(ops: seq<Op>, p: Peer, cutoff: int): nat {
    if ops == [] then 0
    else
      var before, op := MalformedSince(ops[..|ops| - 1], p, cutoff), ops[|ops| - 1];
      if op.peer != p then before
      else if op.Reset? then 0
      else before + if op.RecordInvalid? && op.now >= cutoff then 1 else 0
  }

  /** The response bytes of `p` since its last reset, not older than `cutoff`. */
  function BytesSince(ops: seq<Op>, p: Peer, cutoff: int): nat {
    if ops == [] then 0
    else
      var before, op := BytesSince(ops[..|ops| - 1], p, cutoff), ops[|ops| - 1];
      if op.peer != p then before
      else if op.Reset? then 0
      else before + if op.RecordBytes? && op.now >= cutoff then op.bytes else 0
  }

  lemma LogStepUses(c: Config, log: Window, op: Op, cutoff: int)
    ensures var next := LogStep(c, log, op).0;
      && |Since(next.invalid, cutoff)| ==
           (if op.Reset? then 0
            else |Since(log.invalid, cutoff)| + if op.RecordInvalid? && op.now >= cutoff then 1 else 0)
      && Sum(Since(next.responses, cutoff)) ==
           (if op.Reset? then 0
            else Sum(Since(log.responses, cutoff)) + if op.RecordBytes? && op.now >= cutoff then op.bytes else 0)
  {
    hide Verdict, Recent;
    match op {
      case RecordInvalid(_, now) => SinceSnoc(log.invalid, Mark(now, 0), cutoff);
      case RecordBytes(_, now, bytes) => SinceSnoc(log.responses, Mark(now, bytes), cutoff);
      case _ =>
    }
  }

  lemma SinceSnoc(s: seq<Mark>, m: Mark, cutoff: int)
    ensures |Since(s + [m], cutoff)| == |Since(s, cutoff)| + if m.at >= cutoff then 1 else 0
    ensures Sum(Since(s + [m], cutoff)) == Sum(Since(s, cutoff)) + if m.at >= cutoff then m.bytes else 0
  {
    assert (s + [m])[..|s|] == s;
    var r := Since(s, cutoff);
    assert (r + [m])[..|r|] == r;
  }

  lemma {:induction false} LogUses(c: Config, ops: seq<Op>, p: Peer, cutoff: int)
    ensures var log := LogRun(c, Own(ops, p));
      |Since(log.invalid, cutoff)| == MalformedSince(ops, p, cutoff)
      && Sum(Since(log.responses, cutoff)) == BytesSince(ops, p, cutoff)
  {
    if ops != [] {
      hide LogStep, Since, Sum;
      var n := |ops| - 1;
      LogUses(c, ops[..n], p, cutoff);
      if ops[n].peer == p {
        var own := Own(ops[..n], p);
        LogRunSnoc(c, own, ops[n]);
        LogStepUses(c, LogRun(c, own), ops[n], cutoff);
      }
    } else {
      assert Since([], cutoff) == [];
    }
  }

  /** The allowed requests of `p` since its last reset, not older than `cutoff`. */
  function AllowedSince(c: Config, ops: seq<Op>, p: Peer, cutoff: int): nat { |Since(AllowedLog(c, ops, p), cutoff)| }

  /**
   Which answer a request gets, if the times of the peer's calls never go back: it is blocked by enough malformed
   requests, else stopped by enough response bytes, else by enough allowed requests, each since the last reset
   and within the window that ends with the call.
   */
  lemma AdmitAnswerIs(c: Config, ops: seq<Op>, p: Peer, now: int)
    requires LateBy(ops + [Admit(p, now)], p, 0)
    ensures var answer, cutoff := AnswerTo(c, ops, Admit(p, now)), now - c.span;
      var blocked := MalformedSince(ops, p, cutoff) >= c.maxInvalid;
      var exceeded := BytesSince(ops, p, cutoff) >= c.maxBytes;
      var limited := AllowedSince(c, ops, p, cutoff) >= c.maxRequests;
      && (answer == Blocked <==> blocked)
      && (answer == ResponseBudgetExceeded <==> !blocked && exceeded)
      && (answer == RateLimited <==> !blocked && !exceeded && limited)
      && (answer == Allowed <==> !blocked && !exceeded && !limited)
  {
    AnswersFromFullLog(c, ops, Admit(p, now));
    assert LateBy(ops, p, 0) by {
      assert forall i | 0 <= i < |ops| :: (ops + [Admit(p, now)])[i] == ops[i];
    }
    LogHoldsAllowed(c, ops, p);
    LogUses(c, ops, p, now - c.span);
    hide LateBy, Own, LogRun, Since, Sum, AnswerTo, AllowedLog;
  }

  /** What a malformed request is told, under the same condition. */
  lemma MalformedAnswerIs(c: Config, ops: seq<Op>, p: Peer, now: int)
    requires LateBy(ops + [RecordInvalid(p, now)], p, 0)
    ensures AnswerTo(c, ops, RecordInvalid(p, now))
      == Unblocked(MalformedSince(ops, p, now - c.span) < c.maxInvalid)
  {
    AnswersFromFullLog(c, ops, RecordInvalid(p, now));
    LogUses(c, ops, p, now - c.span);
    hide LateBy, Own, LogRun, Since, Sum, AnswerTo;
  }

  // ---- How far the rate bound reaches ----

  /** The constructor raises every budget to at least one. */
  predicate Budgeted(c: Config) { c.maxRequests >= 1 && c.maxBytes >= 1 && c.maxInvalid >= 1 }

  /** One mark of any kind already refuses the next request. */
  predicate Single(c: Config) { c.maxRequests == 1 && c.maxBytes == 1 && c.maxInvalid == 1 }

  ghost predicate FrontFrom(s: seq<Mark>, a: int) { s != [] && s[0].at >= a }

  ghost predicate Guarded(w: Window, a: int) {
    FrontFrom(w.requests, a) || FrontFrom(w.responses, a) || FrontFrom(w.invalid, a)
  }

  ghost predicate Positive(w: Window) { forall m | m in w.responses :: m.bytes >= 1 }

  /** A deque whose front is not older than `a` keeps it, or everything up to `a` has left the window. */
  lemma FrontStays(s: seq<Mark>, cutoff: int, a: int)
    ensures FrontFrom(s, a) ==> FrontFrom(DropOld(s, cutoff), a) || a < cutoff
    ensures DropOld(s, cutoff) != [] ==> FrontFrom(DropOld(s, cutoff), cutoff)
    ensures forall m | m in DropOld(s, cutoff) :: m in s
  {
    DropOldEnd(s, cutoff);
  }

  lemma PurgeGuards(w: Window, cutoff: int, a: int)
    requires Guarded(w, a) && Positive(w)
    ensures var v := Purged(w, cutoff);
      Positive(v) && (v == Blank ==> a < cutoff) && (v != Blank ==> Guarded(v, a))
  {
    FrontStays(w.requests, cutoff, a);
    FrontStays(w.responses, cutoff, a);
    FrontStays(w.invalid, cutoff, a);
    hide DropOld;
  }

  /** With budgets of one, a request allowed at `a` keeps the next from being allowed within the window. */
  lemma SingleStep(c: Config, w: Window, op: Op, a: int)
    requires Single(c) && Guarded(w, a) && Positive(w) && !op.Reset?
    ensures Guarded(Step(c, w, op).0, a)
    ensures op.Admit? && Step(c, w, op).1 == Allowed ==> a + c.span < op.now
  {
    PurgeGuards(w, op.now - c.span, a);
    hide Purged;
  }

  lemma PositiveStep(c: Config, w: Window, op: Op)
    requires Positive(w)
    ensures Positive(Step(c, w, op).0)
  {
    if Purges(op) {
      FrontStays(w.responses, op.now - c.span, 0);
      hide DropOld, Verdict;
    }
  }

  ghost predicate Spaced(s: seq<Mark>, gap: int) { forall i, j | 0 <= i < j < |s| :: s[i].at + gap < s[j].at }

  lemma {:induction false} SingleSpaced(c: Config, ops: seq<Op>, p: Peer)
    requires Single(c)
    ensures var w, log := Get(Run(c, map[], ops), p), AllowedLog(c, ops, p);
      Positive(w) && Spaced(log, c.span) && forall m | m in log :: Guarded(w, m.at)
  {
    if ops != [] {
      var n := |ops| - 1;
      var before, op := ops[..n], ops[n];
      SingleSpaced(c, before, p);
      var w, log := Get(Run(c, map[], before), p), AllowedLog(c, before, p);
      if op.peer == p && !op.Reset? {
        PositiveStep(c, w, op);
        forall m | m in log
          ensures Guarded(Step(c, w, op).0, m.at)
          ensures op.Admit? && Step(c, w, op).1 == Allowed ==> m.at + c.span < op.now
        {
          SingleStep(c, w, op, m.at);
        }
        if op.Admit? && Step(c, w, op).1 == Allowed {
          AllowedGuards(c, w, op);
        }
        hide Step, Positive, Guarded;
      }
    }
  }

  lemma AllowedGuards(c: Config, w: Window, op: Op)
    requires Single(c) && op.Admit? && Step(c, w, op).1 == Allowed
    ensures Guarded(Step(c, w, op).0, op.now)
  {
    hide DropOld;
  }

  lemma SpacedCount(s: seq<Mark>, from: int, to: int, gap: int)
    requires Spaced(s, gap) && to <= from + gap
    ensures CountIn(s, from, to) <= 1
  {
    if s != [] {
      var n := |s| - 1;
      SpacedCount(s[..n], from, to, gap);
      if from <= s[n].at <= to {
        CountSplits(s[..n], n, from, to);
      }
    }
  }

  function Requests(p: Peer, now: int, n: nat): (ops: seq<Op>)
    ensures |ops| == n && forall i | 0 <= i < n :: ops[i] == Admit(p, now)
  {
    if n == 0 then [] else Requests(p, now, n - 1) + [Admit(p, now)]
  }

  lemma MarksKept(now: int, n: nat, cutoff: int)
    requires cutoff <= now
    ensures DropOld(Marks(now, n), cutoff) == Marks(now, n)
  {
  }

  lemma RequestStep(c: Config, p: Peer, now: int, n: nat)
    requires Budgeted(c) && n < c.maxRequests
    ensures Step(c, Window(Marks(now, n), [], []), Admit(p, now)) == (Window(Marks(now, n + 1), [], []), Allowed)
  {
    MarksKept(now, n, now - c.span);
  }

  lemma {:induction false} RequestsAllowed(c: Config, p: Peer, now: int, n: nat)
    requires Budgeted(c) && n <= c.maxRequests
    ensures Get(Run(c, map[], Requests(p, now, n)), p) == Window(Marks(now, n), [], [])
    ensures AllowedLog(c, Requests(p, now, n), p) == Marks(now, n)
  {
    if n > 0 {
      RequestsAllowed(c, p, now, n - 1);
      RequestStep(c, p, now, n - 1);
      LogSnoc(c, Requests(p, now, n - 1), Admit(p, now));
      hide Step, Run, AllowedLog;
    }
  }

  lemma {:induction false} MarksCount(now: int, n: nat, from: int, to: int)
    requires from <= now <= to
    ensures CountIn(Marks(now, n), from, to) == n
  {
    if n > 0 {
      MarksCount(now, n - 1, from, to);
      assert (Marks(now, n - 1) + [Mark(now, 0)])[..n - 1] == Marks(now, n - 1);
    }
  }

  lemma {:induction false} MarksDrop(now: int, n: nat, cutoff: int)
    requires now < cutoff
    ensures DropOld(Marks(now, n), cutoff) == []
  {
    DropOldEnd(Marks(now, n), cutoff);
  }

  /** A call that empties the deque without refusing the next request, unless every budget is one. */
  function Intruder(c: Config, p: Peer): Op {
    if c.maxRequests >= 2 then Admit(p, c.span + 1)
    else if c.maxBytes >= 2 then RecordBytes(p, c.span + 1, 1)
    else RecordInvalid(p, c.span + 1)
  }

  /** The deque is full, a call from after the window empties it, and a late one is allowed. */
  function LateOps(c: Config, p: Peer, d: nat): seq<Op> {
    Requests(p, 0, c.maxRequests) + [Intruder(c, p)] + [Admit(p, if d > c.span then 0 else c.span + 1 - d)]
  }

  lemma LogSnoc(c: Config, ops: seq<Op>, op: Op)
    ensures Get(Run(c, map[], ops + [op]), op.peer) == Step(c, Get(Run(c, map[], ops), op.peer), op).0
    ensures op.Admit? && AnswerTo(c, ops, op) == Allowed ==>
      AllowedLog(c, ops + [op], op.peer) == AllowedLog(c, ops, op.peer) + [Mark(op.now, 0)]
    ensures !op.Admit? && !op.Reset? ==> AllowedLog(c, ops + [op], op.peer) == AllowedLog(c, ops, op.peer)
  {
    hide Step;
    assert (ops + [op])[..|ops|] == ops;
  }

  /** What the intruder leaves: its own mark alone. */
  function Intruded(c: Config): Window {
    if c.maxRequests >= 2 then Window([Mark(c.span + 1, 0)], [], [])
    else if c.maxBytes >= 2 then Window([], [Mark(c.span + 1, 1)], [])
    else Window([], [], [Mark(c.span + 1, 0)])
  }

  lemma IntruderStep(c: Config, p: Peer)
    requires Budgeted(c)
    ensures var op := Intruder(c, p);
      var (w, answer) := Step(c, Window(Marks(0, c.maxRequests), [], []), op);
      w == Intruded(c) && (op.Admit? ==> answer == Allowed)
  {
    MarksDrop(0, c.maxRequests, 1);
    assert DropOld([], 1) == [] && Sum([]) == 0;
    hide Marks, DropOld, Sum;
  }

  lemma LateStep(c: Config, p: Peer, now: int)
    requires Budgeted(c) && !Single(c) && now <= c.span + 1
    ensures Step(c, Intruded(c), Admit(p, now)).1 == Allowed
  {
    hide DropOld, Sum;
    KeepsOne(Mark(c.span + 1, 0), now - c.span);
    KeepsOne(Mark(c.span + 1, 1), now - c.span);
  }

  lemma KeepsOne(m: Mark, cutoff: int)
    requires cutoff <= m.at
    ensures DropOld([], cutoff) == [] && DropOld([m], cutoff) == [m] && Sum([]) == 0 && Sum([m]) == m.bytes
  {
    assert [m][..0] == [];
  }

  lemma CountSnoc(s: seq<Mark>, m: Mark, from: int, to: int)
    ensures CountIn(s + [m], from, to) == CountIn(s, from, to) + if from <= m.at <= to then 1 else 0
  {
    assert (s + [m])[..|s|] == s;
  }

  lemma LateOpsLate(c: Config, p: Peer, d: nat)
    ensures LateBy(LateOps(c, p, d), p, d)
  {
    var ops, n := LateOps(c, p, d), c.maxRequests;
    assert forall i | 0 <= i < n :: ops[i] == Admit(p, 0);
    assert ops[n].now == c.span + 1;
    hide Intruder, LateOps;
  }

  /** After the intruder everything allowed before still counts, and a late request is allowed. */
  lemma AfterIntruder(c: Config, p: Peer, now: int, len: nat)
    requires Budgeted(c) && !Single(c) && now <= c.span + 1
    ensures var ops := Requests(p, 0, c.maxRequests) + [Intruder(c, p)];
      CountIn(AllowedLog(c, ops, p), 0, len) >= c.maxRequests && AnswerTo(c, ops, Admit(p, now)) == Allowed
  {
    hide Step, Run, AllowedLog, Marks, CountIn, Requests;
    var full, mid := Requests(p, 0, c.maxRequests), Intruder(c, p);
    RequestsAllowed(c, p, 0, c.maxRequests);
    IntruderStep(c, p);
    LateStep(c, p, now);
    LogSnoc(c, full, mid);
    MarksCount(0, c.maxRequests, 0, len);
    CountSnoc(Marks(0, c.maxRequests), Mark(c.span + 1, 0), 0, len);
  }

  lemma LateRun(c: Config, p: Peer, d: nat, len: nat)
    requires Budgeted(c) && !Single(c) && len <= c.span < len + d
    ensures AllowedIn(c, LateOps(c, p, d), p, 0, len) > c.maxRequests
  {
    hide Step, Run, AllowedLog, CountIn, Requests, Intruder, AnswerTo;
    var ops := Requests(p, 0, c.maxRequests) + [Intruder(c, p)];
    var now := if d > c.span then 0 else c.span + 1 - d;
    AfterIntruder(c, p, now, len);
    LogSnoc(c, ops, Admit(p, now));
    CountSnoc(AllowedLog(c, ops, p), Mark(now, 0), 0, len);
  }

  /** One request more, just after the window. */
  lemma LongRun(c: Config, p: Peer, len: nat)
    requires Budgeted(c) && c.span < len
    ensures AllowedIn(c, Requests(p, 0, c.maxRequests) + [Admit(p, c.span + 1)], p, 0, len) > c.maxRequests
  {
    var full := Requests(p, 0, c.maxRequests);
    RequestsAllowed(c, p, 0, c.maxRequests);
    NextAllowed(c, p);
    hide Step, Run, AllowedLog, Marks, CountIn, Requests;
    LogSnoc(c, full, Admit(p, c.span + 1));
    MarksCount(0, c.maxRequests, 0, len);
    CountSnoc(Marks(0, c.maxRequests), Mark(c.span + 1, 0), 0, len);
  }

  lemma NextAllowed(c: Config, p: Peer)
    requires Budgeted(c)
    ensures Step(c, Window(Marks(0, c.maxRequests), [], []), Admit(p, c.span + 1)).1 == Allowed
  {
    MarksDrop(0, c.maxRequests, 1);
    hide Marks;
  }

  ghost predicate Fits(c: Config, ops: seq<Op>, p: Peer, from: int, len: nat) {
    AllowedIn(c, ops, p, from, from + len) <= c.maxRequests
  }

  ghost predicate Bounded(c: Config, d: nat, len: nat) {
    forall ops, p, from | LateBy(ops, p, d) :: Fits(c, ops, p, from, len)
  }

  /**
   Exactly how far the rate bound reaches: it holds in every closed window of length `len` of every run whose
   calls are recorded at most `d` late, if and only if `len + d` is at most the configured length, or `len` is
   and all budgets are one.
   */
  lemma WindowBoundIff(c: Config, d: nat, len: nat)
    requires Budgeted(c)
    ensures Bounded(c, d, len) <==> len + d <= c.span || (len <= c.span && Single(c))
  {
    hide CountIn, AllowedLog, LateOps;
    if len + d <= c.span {
      forall ops, p, from | LateBy(ops, p, d)
        ensures Fits(c, ops, p, from, len)
      {
        WindowBound(c, ops, p, c.span - len, from);
      }
    } else if len > c.span {
      LongRun(c, "", len);
      var ops := Requests("", 0, c.maxRequests) + [Admit("", c.span + 1)];
      assert LateBy(ops, "", d) && !Fits(c, ops, "", 0, len);
    } else if Single(c) {
      forall ops, p, from | LateBy(ops, p, d)
        ensures Fits(c, ops, p, from, len)
      {
        SingleSpaced(c, ops, p);
        SpacedCount(AllowedLog(c, ops, p), from, from + len, c.span);
      }
    } else {
      LateOpsLate(c, "", d);
      LateRun(c, "", d, len);
      assert !Fits(c, LateOps(c, "", d), "", 0, len);
    }
  }

  /**
   `record_invalid` is documented to say whether the peer remains unblocked. When it says so, a request made
   at the same moment is nevertheless blocked exactly if the malformed requests have just reached the maximum.
   */
  lemma UnblockedButBlocked(c: Config, w: Window, p: Peer, now: int)
    requires Step(c, w, RecordInvalid(p, now)).1 == Unblocked(true)
    ensures Step(c, Step(c, w, RecordInvalid(p, now)).0, Admit(p, now)).1 == Blocked
      <==> |DropOld(w.invalid, now - c.span)| + 1 == c.maxInvalid
  {
    DropTwice(w.invalid, Mark(now, 0), now - c.span);
  }

  function Malformed(p: Peer, now: int, n: nat): (ops: seq<Op>)
    ensures |ops| == n && forall i | 0 <= i < n :: ops[i] == RecordInvalid(p, now)
  {
    if n == 0 then [] else Malformed(p, now, n - 1) + [RecordInvalid(p, now)]
  }

  function Marks(now: int, n: nat): (s: seq<Mark>)
    ensures |s| == n && forall i | 0 <= i < n :: s[i].at == now
  {
    if n == 0 then [] else Marks(now, n - 1) + [Mark(now, 0)]
  }

  lemma MalformedStep(c: Config, p: Peer, now: int, n: nat)
    ensures Purged(Window([], [], Marks(now, n)), now - c.span) == Window([], [], Marks(now, n))
    ensures Step(c, Window([], [], Marks(now, n)), RecordInvalid(p, now))
      == (Window([], [], Marks(now, n + 1)), Unblocked(n + 1 <= c.maxInvalid))
  {
    assert DropOld(Marks(now, n), now - c.span) == Marks(now, n);
  }

  lemma {:induction false} MalformedWindow(c: Config, p: Peer, now: int, n: nat)
    ensures Get(Run(c, map[], Malformed(p, now, n)), p) == Window([], [], Marks(now, n))
  {
    if n > 0 {
      MalformedWindow(c, p, now, n - 1);
      MalformedStep(c, p, now, n - 1);
      hide Step, Marks;
      var before := Malformed(p, now, n - 1);
      assert (before + [RecordInvalid(p, now)])[..|before|] == before;
    }
  }

  /** From a new limiter: the malformed request that reaches the maximum leaves it "unblocked", the next is blocked. */
  lemma UnblockedThenBlocked(c: Config, p: Peer, now: int)
    requires c.maxInvalid >= 1
    ensures AnswerTo(c, Malformed(p, now, c.maxInvalid - 1), RecordInvalid(p, now)) == Unblocked(true)
    ensures AnswerTo(c, Malformed(p, now, c.maxInvalid), Admit(p, now)) == Blocked
  {
    MalformedWindow(c, p, now, c.maxInvalid - 1);
    MalformedWindow(c, p, now, c.maxInvalid);
    MalformedStep(c, p, now, c.maxInvalid - 1);
    MalformedStep(c, p, now, c.maxInvalid);
    hide Run, Purged, Marks;
  }

  // ---- Late calls and the complete log ----

  lemma LogRunSnoc(c: Config, ops: seq<Op>, op: Op)
    ensures LogRun(c, []) == Blank && LogRun(c, ops + [op]) == LogStep(c, LogRun(c, ops), op).0
  {
    hide LogStep;
    assert (ops + [op])[..|ops|] == ops;
  }

  lemma {:induction false} SinceNone(s: seq<Mark>, cutoff: int)
    requires forall i | 0 <= i < |s| :: s[i].at < cutoff
    ensures Since(s, cutoff) == []
  {
    if s != [] { SinceNone(s[..|s| - 1], cutoff); }
  }

  lemma {:induction false} OwnAll(ops: seq<Op>, p: Peer)
    requires forall i | 0 <= i < |ops| :: ops[i].peer == p
    ensures Own(ops, p) == ops
  {
    if ops != [] {
      OwnAll(ops[..|ops| - 1], p);
    }
  }

  lemma LogMalformed(c: Config, ops: seq<Op>, log: seq<Mark>, p: Peer, now: int)
    requires LogRun(c, ops) == Window([], [], log)
    ensures LogRun(c, ops + [RecordInvalid(p, now)]) == Window([], [], log + [Mark(now, 0)])
  {
    LogRunSnoc(c, ops, RecordInvalid(p, now));
    hide Since, LogRun;
  }

  lemma {:induction false} MalformedLog(c: Config, p: Peer, now: int, n: nat)
    ensures LogRun(c, Malformed(p, now, n)) == Window([], [], Marks(now, n))
  {
    if n == 0 {
      assert Malformed(p, now, 0) == [] && Marks(now, 0) == [];
    } else {
      hide LogStep, LogRun;
      MalformedLog(c, p, now, n - 1);
      LogMalformed(c, Malformed(p, now, n - 1), Marks(now, n - 1), p, now);
    }
  }

  /** Malformed requests up to the maximum, and a request from after their window. */
  function Forgotten(c: Config, p: Peer): seq<Op> { Malformed(p, 0, c.maxInvalid) + [Admit(p, c.span + 1)] }

  lemma ForgottenWindow(c: Config, p: Peer)
    requires Budgeted(c)
    ensures Get(Run(c, map[], Forgotten(c, p)), p) == Window([Mark(c.span + 1, 0)], [], [])
  {
    var before, op := Malformed(p, 0, c.maxInvalid), Admit(p, c.span + 1);
    MalformedWindow(c, p, 0, c.maxInvalid);
    LogSnoc(c, before, op);
    hide Run;
    MarksDrop(0, c.maxInvalid, 1);
    assert DropOld([], 1) == [] && Sum([]) == 0;
    hide Marks, DropOld, Sum;
  }

  lemma LogForgets(c: Config, p: Peer, invalid: seq<Mark>)
    requires Budgeted(c) && Since(invalid, 1) == []
    ensures LogStep(c, Window([], [], invalid), Admit(p, c.span + 1)).0 == Window([Mark(c.span + 1, 0)], [], invalid)
  {
    assert Since([], 1) == [] && Sum([]) == 0;
    hide Since, Sum;
  }

  lemma ForgottenLog(c: Config, p: Peer)
    requires Budgeted(c)
    ensures LogRun(c, Forgotten(c, p)) == Window([Mark(c.span + 1, 0)], [], Marks(0, c.maxInvalid))
  {
    hide LogRun, LogStep, Since, Marks;
    MalformedLog(c, p, 0, c.maxInvalid);
    LogRunSnoc(c, Malformed(p, 0, c.maxInvalid), Admit(p, c.span + 1));
    SinceNone(Marks(0, c.maxInvalid), 1);
    LogForgets(c, p, Marks(0, c.maxInvalid));
  }

  lemma LateVerdicts(c: Config, p: Peer, invalid: seq<Mark>)
    requires Budgeted(c) && |Since(invalid, 0)| >= c.maxInvalid
    ensures Step(c, Window([Mark(c.span + 1, 0)], [], []), Admit(p, c.span)).1 != Blocked
    ensures LogStep(c, Window([Mark(c.span + 1, 0)], [], invalid), Admit(p, c.span)).1 == Blocked
  {
    assert DropOld([], 0) == [];
    hide DropOld, Since, Sum;
  }

  /** A request recorded late, where the complete log says "blocked" and the code has forgotten why. */
  lemma LateAnswersDiffer(c: Config, p: Peer)
    requires Budgeted(c)
    ensures AnswerTo(c, Forgotten(c, p), Admit(p, c.span)) != Blocked
    ensures LogStep(c, LogRun(c, Forgotten(c, p)), Admit(p, c.span)).1 == Blocked
  {
    hide Run, LogRun, Step, LogStep, Forgotten, Since, Marks;
    ForgottenWindow(c, p);
    ForgottenLog(c, p);
    SinceAll(Marks(0, c.maxInvalid), 0);
    LateVerdicts(c, p, Marks(0, c.maxInvalid));
  }

  lemma ForgottenLate(c: Config, p: Peer, d: nat)
    requires d >= 1
    ensures LateBy(Forgotten(c, p) + [Admit(p, c.span)], p, d)
    ensures Own(Forgotten(c, p), p) == Forgotten(c, p)
  {
    OwnAll(Forgotten(c, p), p);
    var ops, n := Forgotten(c, p) + [Admit(p, c.span)], c.maxInvalid;
    assert forall i | 0 <= i < n :: ops[i] == RecordInvalid(p, 0);
    assert ops[n] == Admit(p, c.span + 1) && ops[n + 1] == Admit(p, c.span);
    hide Malformed, Own, Forgotten;
  }

  ghost predicate AnsweredFromLog(c: Config, ops: seq<Op>, op: Op) {
    AnswerTo(c, ops, op) == LogStep(c, LogRun(c, Own(ops, op.peer)), op).1
  }

  /** The code answers from the complete log in all runs recorded at most `d` late exactly if `d` is zero. */
  lemma AnswersFromFullLogIff(c: Config, d: nat)
    requires Budgeted(c)
    ensures (forall ops, op: Op | LateBy(ops + [op], op.peer, d) :: AnsweredFromLog(c, ops, op)) <==> d == 0
  {
    if d == 0 {
      forall ops, op: Op | LateBy(ops + [op], op.peer, 0)
        ensures AnsweredFromLog(c, ops, op)
      {
        AnswersFromFullLog(c, ops, op);
      }
    } else {
      ForgottenLate(c, "", d);
      LateAnswersDiffer(c, "");
      assert !AnsweredFromLog(c, Forgotten(c, ""), Admit("", c.span));
    }
  }

  lemma {:induction false} DropTwice(s: seq<Mark>, m: Mark, cutoff: int)
    requires m.at >= cutoff
    ensures DropOld(DropOld(s, cutoff) + [m], cutoff) == DropOld(s, cutoff) + [m]
  {
    if s != [] && s[0].at < cutoff {
      DropTwice(s[1..], m, cutoff);
    }
  }

  // ---- The plain rate limiter ----

  /** The same deque without the byte and malformed-request budgets. */
  class PeerCatalogueRateLimiter {
    var windows: map<Peer, seq<Mark>>
    const maxRequests: nat
    const span: nat

    constructor (maxRequests: nat, span: nat)
      ensures windows == map[] && this.maxRequests == AtLeastOne(maxRequests) && this.span == span
    {
      windows, this.maxRequests, this.span := map[], AtLeastOne(maxRequests), span;
    }

    function Requests(p: Peer): seq<Mark>
      reads this
    {
      if p in windows then windows[p] else []
    }

    /** It answers and records as the abuse limiter does for a peer with no responses and no malformed requests. */
    method CheckAndRecord(peer: Peer, now: int) returns (allowed: bool)
      modifies this`windows
      ensures var c := Config(maxRequests, 1, 1, span);
        var step := Step(c, Window(old(Requests(peer)), [], []), Admit(peer, now));
        Requests(peer) == step.0.requests && (allowed <==> step.1 == Allowed)
      ensures forall q | q != peer :: Requests(q) == old(Requests(q))
    {
      var entries := PurgeQueue(if peer in windows then windows[peer] else [], now - span);
      allowed := |entries| < maxRequests;
      if allowed {
        entries := entries + [Mark(now, 0)];
      }
      windows := windows[peer := entries];
    }
  }
}
