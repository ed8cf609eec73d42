/**
 What the per-peer limiter (src/catalogue_rate_limits.rs) leaves of a catalogue fetch: every request of the
 fetch passes it first (src/catalogue_handler/serve.rs), together with whatever else the limiter is told.
 */
module ThrottledFetch {
  import opened Basics
  import opened CatalogueFetch
  import Limiter = PeerLimiter

  /** The default budgets; the window is ten seconds in nanoseconds. */
  const DefaultConfig: Limiter.Config := Limiter.Config(10, 16 * 1024 * 1024, 3, 10_000_000_000)

  /** Request `i` of the fetch arrives at `times(i)`; `between(i)` is what the limiter sees since the one before. */
  datatype Traffic = Traffic(key: string, times: nat -> int, between: nat -> seq<Limiter.Op>)
  {
    function Call(i: nat): Limiter.Op { Limiter.Admit(key, times(i)) }

    function Before(i: nat): seq<Limiter.Op> {
      if i == 0 then between(0) else Before(i - 1) + [Call(i - 1)] + between(i)
    }
  }

  function LimiterGate(c: Limiter.Config, t: Traffic): Gate {
    (i: nat) =>
      if Limiter.AnswerTo(c, t.Before(i), t.Call(i)) == Limiter.Allowed then None else Some(Refused(OtherCode))
  }

  // ---- No more than the budget in one window ----

  ghost predicate NoReset(ops: seq<Limiter.Op>, key: string) {
    forall k | 0 <= k < |ops| :: !(ops[k].Reset? && ops[k].peer == key)
  }

  lemma {:induction false} AllowedStays(
    c: Limiter.Config, ops: seq<Limiter.Op>, more: seq<Limiter.Op>, key: string, start: int, end: int)
    requires NoReset(more, key)
    ensures Limiter.AllowedIn(c, ops + more, key, start, end) >= Limiter.AllowedIn(c, ops, key, start, end)
  {
    if more == [] {
      assert ops + more == ops;
    } else {
      var n := |more| - 1;
      AllowedStays(c, ops, more[..n], key, start, end);
      assert ops + more == (ops + more[..n]) + [more[n]];
      AllowedSnoc(c, ops + more[..n], more[n], key, start, end);
    }
  }

  lemma AllowedSnoc(c: Limiter.Config, ops: seq<Limiter.Op>, op: Limiter.Op, key: string, start: int, end: int)
    requires !(op.Reset? && op.peer == key)
    ensures Limiter.AllowedIn(c, ops + [op], key, start, end) == Limiter.AllowedIn(c, ops, key, start, end)
      + if op.peer == key && op.Admit? && start <= op.now <= end && Limiter.AnswerTo(c, ops, op) == Limiter.Allowed
        then 1 else 0
  {
    hide Limiter.AnswerTo;
    assert (ops + [op])[..|ops|] == ops;
    var log := Limiter.AllowedLog(c, ops, key);
    if op.Admit? {
      assert (log + [Limiter.Mark(op.now, 0)])[..|log|] == log;
    }
  }

  /** All of the first `n` requests arrive in one window, and the peer is not reset meanwhile. */
  ghost predicate OneWindow(t: Traffic, n: nat, start: int, end: int) {
    && (forall i: nat | i < n :: start <= t.times(i) <= end)
    && (forall i: nat | 0 < i < n :: NoReset(t.between(i), t.key))
  }

  lemma {:induction false} ServedCount(c: Limiter.Config, t: Traffic, n: nat, start: int, end: int)
    requires n > 0 && OneWindow(t, n, start, end) && forall i: nat | i < n :: LimiterGate(c, t)(i) == None
    ensures Limiter.AllowedIn(c, t.Before(n - 1) + [t.Call(n - 1)], t.key, start, end) >= n
  {
    hide Limiter.AnswerTo, Limiter.AllowedIn, NoReset, LimiterGate;
    var i: nat := n - 1;
    ServedAdds(c, t, i, start, end);
    if i > 0 {
      var before := t.Before(i - 1) + [t.Call(i - 1)];
      assert t.Before(i) == before + t.between(i);
      hide Traffic.Before;
      ServedCount(c, t, i, start, end);
      AllowedStays(c, before, t.between(i), t.key, start, end);
    }
  }

  lemma ServedAdds(c: Limiter.Config, t: Traffic, i: nat, start: int, end: int)
    requires LimiterGate(c, t)(i) == None && start <= t.times(i) <= end
    ensures Limiter.AllowedIn(c, t.Before(i) + [t.Call(i)], t.key, start, end)
      == Limiter.AllowedIn(c, t.Before(i), t.key, start, end) + 1
  {
    hide Limiter.AnswerTo, Limiter.AllowedIn;
    AllowedSnoc(c, t.Before(i), t.Call(i), t.key, start, end);
  }

  /** More requests than the budget, in one window less the time calls are recorded late: one is refused. */
  lemma RefusedBeyond(c: Limiter.Config, t: Traffic, n: nat, d: nat, start: int)
    requires n > c.maxRequests && OneWindow(t, n, start, start + c.span - d)
    requires Limiter.LateBy(t.Before(n - 1) + [t.Call(n - 1)], t.key, d)
    ensures FirstRefused(LimiterGate(c, t), 0, n).Some?
  {
    hide Limiter.AllowedIn, Limiter.LateBy, OneWindow, LimiterGate, Traffic.Before;
    if FirstRefused(LimiterGate(c, t), 0, n) == None {
      ServedCount(c, t, n, start, start + c.span - d);
      Limiter.WindowBound(c, t.Before(n - 1) + [t.Call(n - 1)], t.key, d, start);
    }
  }

  // ---- Everything within the budget ----

  function Admits(ops: seq<Limiter.Op>, key: string): nat {
    if ops == [] then 0
    else Admits(ops[..|ops| - 1], key) + if ops[|ops| - 1].Admit? && ops[|ops| - 1].peer == key then 1 else 0
  }

  function Bytes(ops: seq<Limiter.Op>, key: string): nat {
    if ops == [] then 0
    else
      Bytes(ops[..|ops| - 1], key)
      + if ops[|ops| - 1].RecordBytes? && ops[|ops| - 1].peer == key then ops[|ops| - 1].bytes else 0
  }

  function Malformed(ops: seq<Limiter.Op>, key: string): nat {
    if ops == [] then 0
    else Malformed(ops[..|ops| - 1], key) + if ops[|ops| - 1].RecordInvalid? && ops[|ops| - 1].peer == key then 1 else 0
  }

  ghost predicate AtMost(w: Limiter.Window, admits: nat, bytes: nat, malformed: nat) {
    |w.requests| <= admits && Limiter.Sum(w.responses) <= bytes && |w.invalid| <= malformed
  }

  lemma {:induction false} SumFront(s: seq<Limiter.Mark>)
    requires s != []
    ensures Limiter.Sum(s) == s[0].bytes + Limiter.Sum(s[1..])
  {
    if |s| == 1 {
      assert s[..0] == [] && s[1..] == [];
    } else {
      SumFront(s[..|s| - 1]);
      assert s[..|s| - 1][1..] == s[1..][..|s| - 2];
    }
  }

  lemma {:induction false} DropShrinks(s: seq<Limiter.Mark>, cutoff: int)
    ensures |Limiter.DropOld(s, cutoff)| <= |s| && Limiter.Sum(Limiter.DropOld(s, cutoff)) <= Limiter.Sum(s)
  {
    if s != [] && s[0].at < cutoff {
      SumFront(s);
      DropShrinks(s[1..], cutoff);
    }
  }

  lemma PurgeShrinks(w: Limiter.Window, cutoff: int, admits: nat, bytes: nat, malformed: nat)
    requires AtMost(w, admits, bytes, malformed)
    ensures AtMost(Limiter.Purged(w, cutoff), admits, bytes, malformed)
  {
    DropShrinks(w.requests, cutoff);
    DropShrinks(w.responses, cutoff);
    DropShrinks(w.invalid, cutoff);
    hide Limiter.DropOld, Limiter.Sum;
  }

  lemma StepAdds(c: Limiter.Config, w: Limiter.Window, op: Limiter.Op, admits: nat, bytes: nat, malformed: nat)
    requires AtMost(w, admits, bytes, malformed)
    ensures AtMost(Limiter.Step(c, w, op).0, admits + (if op.Admit? then 1 else 0),
                   bytes + (if op.RecordBytes? then op.bytes else 0), malformed + (if op.RecordInvalid? then 1 else 0))
  {
    if !op.Reset? {
      PurgeShrinks(w, op.now - c.span, admits, bytes, malformed);
      var v := Limiter.Purged(w, op.now - c.span);
      hide Limiter.Purged, Limiter.Verdict;
      if op.RecordBytes? {
        assert (v.responses + [Limiter.Mark(op.now, op.bytes)])[..|v.responses|] == v.responses;
      }
    }
  }

  lemma {:induction false} UsedAtMost(c: Limiter.Config, ops: seq<Limiter.Op>, key: string)
    ensures AtMost(Limiter.Get(Limiter.Run(c, map[], ops), key), Admits(ops, key), Bytes(ops, key), Malformed(ops, key))
  {
    if ops != [] {
      hide AtMost, Limiter.Step;
      var n := |ops| - 1;
      UsedAtMost(c, ops[..n], key);
      if ops[n].peer == key {
        StepAdds(c, Limiter.Get(Limiter.Run(c, map[], ops[..n]), key), ops[n],
                 Admits(ops[..n], key), Bytes(ops[..n], key), Malformed(ops[..n], key));
      }
    } else {
      assert AtMost(Limiter.Blank, 0, 0, 0);
    }
  }

  /** A peer that has used up none of its budgets is admitted, whatever the clock does. */
  lemma UnusedIsAllowed(c: Limiter.Config, ops: seq<Limiter.Op>, key: string, now: int)
    requires Admits(ops, key) < c.maxRequests && Bytes(ops, key) < c.maxBytes && Malformed(ops, key) < c.maxInvalid
    ensures Limiter.AnswerTo(c, ops, Limiter.Admit(key, now)) == Limiter.Allowed
  {
    UsedAtMost(c, ops, key);
    var w := Limiter.Get(Limiter.Run(c, map[], ops), key);
    hide Limiter.Run, Admits, Bytes, Malformed;
    PurgeShrinks(w, now - c.span, Admits(ops, key), Bytes(ops, key), Malformed(ops, key));
    hide Limiter.Purged, Limiter.Sum;
  }

  /** The fetch is the peer's only request traffic, and its responses stay within the byte budget. */
  ghost predicate Quiet(c: Limiter.Config, t: Traffic, n: nat) {
    forall i: nat | i < n ::
      && Admits(t.between(i), t.key) == 0
      && Bytes(t.Before(i), t.key) < c.maxBytes && Malformed(t.Before(i), t.key) < c.maxInvalid
  }

  lemma {:induction false} AdmitsAppend(a: seq<Limiter.Op>, b: seq<Limiter.Op>, key: string)
    ensures Admits(a + b, key) == Admits(a, key) + Admits(b, key)
  {
    if b == [] {
      assert a + b == a;
    } else {
      AdmitsAppend(a, b[..|b| - 1], key);
      assert (a + b)[..|a + b| - 1] == a + b[..|b| - 1];
    }
  }

  lemma {:induction false} OwnAdmits(c: Limiter.Config, t: Traffic, n: nat, i: nat)
    requires Quiet(c, t, n) && i < n
    ensures Admits(t.Before(i), t.key) == i
  {
    if i > 0 {
      OwnAdmits(c, t, n, i - 1);
      var before := t.Before(i - 1);
      AdmitsAppend(before, [t.Call(i - 1)], t.key);
      AdmitsAppend(before + [t.Call(i - 1)], t.between(i), t.key);
      assert Admits([t.Call(i - 1)], t.key) == 1 by { assert [t.Call(i - 1)][..0] == []; }
    }
  }

  /** In quiet traffic the first requests, as many as the budget, are all served. */
  lemma ServedWithin(c: Limiter.Config, t: Traffic, n: nat)
    requires Quiet(c, t, n) && n <= c.maxRequests
    ensures FirstRefused(LimiterGate(c, t), 0, n) == None
  {
    forall i: nat | i < n
      ensures LimiterGate(c, t)(i) == None
    {
      OwnAdmits(c, t, n, i);
      UnusedIsAllowed(c, t.Before(i), t.key, t.times(i));
    }
  }

  // ---- The fetch behind the limiter ----

  /** Enough requests for any fetch arrive in one window, less the time calls are recorded late. */
  ghost predicate Brief(c: Limiter.Config, t: Traffic, d: nat, start: int) {
    var n := c.maxRequests + 1;
    OneWindow(t, n, start, start + c.span - d) && Limiter.LateBy(t.Before(n - 1) + [t.Call(n - 1)], t.key, d)
  }

  lemma {:induction false} RefusedEarlier(gate: Gate, n: nat, all: nat)
    requires n <= all && FirstRefused(gate, 0, n).Some?
    ensures FirstRefused(gate, 0, all) == FirstRefused(gate, 0, n)
  {
    FirstRefusedSplit(gate, 0, n, all);
  }

  /** The limiter's refusals all come back as the same protocol error. */
  lemma PlainFetchIff(h: Host, checks: Checks, gate: Gate, requested: nat)
    requires Honest(h, checks) && forall i: nat :: gate(i) in {None, Some(Refused(OtherCode))}
    ensures Fetched(HostServer(h, gate), checks, h.catalogue.owner, requested) ==
      if FirstRefused(gate, 0, RequestsFor(h, PageSize(requested))) == None then Ok(h.catalogue) else Err(ProtocolError)
  {
    hide Fetched, HostServer, RequestsFor;
    HonestFetchIff(h, checks, gate, requested);
  }

  lemma LimiterRefuses(c: Limiter.Config, t: Traffic, d: nat, start: int, all: nat)
    ensures all > c.maxRequests && Brief(c, t, d, start) ==> FirstRefused(LimiterGate(c, t), 0, all).Some?
    ensures all <= c.maxRequests && Quiet(c, t, all) ==> FirstRefused(LimiterGate(c, t), 0, all) == None
  {
    if all > c.maxRequests {
      if Brief(c, t, d, start) {
        RefusedBeyond(c, t, c.maxRequests + 1, d, start);
        RefusedEarlier(LimiterGate(c, t), c.maxRequests + 1, all);
      }
    } else if Quiet(c, t, all) {
      ServedWithin(c, t, all);
    }
  }

  /**
   A fetch that takes more requests than the budget fails within one window of the limiter, whatever else the
   limiter is told meanwhile; in quiet traffic, whatever the times, a fetch that does not succeeds.
   */
  lemma LimitedFetchIff(h: Host, checks: Checks, c: Limiter.Config, t: Traffic, d: nat, start: int, requested: nat)
    requires Honest(h, checks)
    ensures var fetched := Fetched(HostServer(h, LimiterGate(c, t)), checks, h.catalogue.owner, requested);
      var all := RequestsFor(h, PageSize(requested));
      && (all > c.maxRequests && Brief(c, t, d, start) ==> fetched == Err(ProtocolError))
      && (all <= c.maxRequests && Quiet(c, t, all) ==> fetched == Ok(h.catalogue))
  {
    hide Fetched, HostServer, RequestsFor, FirstRefused, Limiter.AnswerTo, Brief, Quiet;
    LimiterRefuses(c, t, d, start, RequestsFor(h, PageSize(requested)));
    PlainFetchIff(h, checks, LimiterGate(c, t), requested);
  }

  lemma TenRequests(h: Host)
    ensures RequestsFor(h, 500) <= 10 <==> |h.catalogue.files| <= if h.cached then 4_000 else 4_500
  {
    PagesForIs(|h.catalogue.files|, 500);
    hide PagesFor;
  }

  lemma QuietBefore(c: Limiter.Config, t: Traffic, n: nat, m: nat)
    requires Quiet(c, t, n) && m <= n
    ensures Quiet(c, t, m)
  {
  }

  /** With the default budgets: 4,500 files at 500 a page, or 4,000 when the handler has a cached view. */
  lemma DefaultBudget(h: Host, checks: Checks, t: Traffic, d: nat, start: int)
    requires Honest(h, checks)
    ensures var fetched := Fetched(HostServer(h, LimiterGate(DefaultConfig, t)), checks, h.catalogue.owner, 0);
      var fits := |h.catalogue.files| <= if h.cached then 4_000 else 4_500;
      && (!fits && Brief(DefaultConfig, t, d, start) ==> fetched == Err(ProtocolError))
      && (fits && Quiet(DefaultConfig, t, 10) ==> fetched == Ok(h.catalogue))
  {
    hide Fetched, HostServer, Brief, Quiet, RequestsFor, Honest;
    LimitedFetchIff(h, checks, DefaultConfig, t, d, start, 0);
    TenRequests(h);
    if RequestsFor(h, 500) <= 10 && Quiet(DefaultConfig, t, 10) {
      QuietBefore(DefaultConfig, t, 10, RequestsFor(h, 500));
    }
  }

  function ManyFiles(n: nat): seq<File> { seq(n, i requires 0 <= i < n => File("", i, "")) }

  /** Every request at once, and nothing else. */
  const Burst: Traffic := Traffic("peer", (i: nat) => 0, (i: nat) => [])

  lemma {:induction false} BurstIs(i: nat)
    ensures forall k | 0 <= k < |Burst.Before(i)| :: Burst.Before(i)[k] == Limiter.Admit("peer", 0)
  {
    if i > 0 {
      BurstIs(i - 1);
    }
  }

  /** A catalogue of 4,501 files, well within the limit of 10,000, that no burst of requests can fetch. */
  lemma OneFileTooMany(checks: Checks)
    requires var c := Catalogue(0, 0, 0, ManyFiles(4_501), ""); checks.genuine(c) && checks.wellFormed(c)
    ensures var h := Host(Catalogue(0, 0, 0, ManyFiles(4_501), ""), 1, false);
      Fetched(HostServer(h, LimiterGate(DefaultConfig, Burst)), checks, 0, 0) == Err(ProtocolError)
  {
    var h := Host(Catalogue(0, 0, 0, ManyFiles(4_501), ""), 1, false);
    BurstIs(10);
    assert Brief(DefaultConfig, Burst, 0, 0);
    assert Honest(h, checks);
    DefaultBudget(h, checks, Burst, 0, 0);
  }
}
