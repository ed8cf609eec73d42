/**
 The dependency closure of the Windows runtime manifest (scripts/gst_windows_manifest.py): the worklist that
 collects the runtime DLLs reachable through imports from the listed plugins and core libraries.
 */
module ManifestClosure {
  import opened Basics

  /** File names compare without case; import tables and the bin index hold lower-case names. */
  function LowerChar(c: char): char {
    if 'A' <= c <= 'Z' then (c as int + 32) as char else c
  }

  function Lower(s: string): (r: string)
    ensures |r| == |s| && forall i | 0 <= i < |s| :: r[i] == LowerChar(s[i])
  {
    seq(|s|, i requires 0 <= i < |s| => LowerChar(s[i]))
  }

  /**
   `files`: the exact names of the DLLs of the bin directory; `bin`: their lower-case names to their imports;
   `plugins`: exact file name to imports.
   */
  datatype Runtime = Runtime(files: set<string>, bin: map<string, set<string>>, plugins: map<string, set<string>>)

  predicate LowerCase(g: Runtime) {
    && (forall f | f in g.files :: Lower(f) in g.bin)
    && (forall k | k in g.bin :: Lower(k) == k)
    && (forall k, imp | k in g.bin && imp in g.bin[k] :: Lower(imp) == imp)
    && (forall p, imp | p in g.plugins && imp in g.plugins[p] :: Lower(imp) == imp)
  }

  // ---- What should be listed ----

  /** Root `j` is resolved in the plugin directory, and is the first of its spelling to be. */
  predicate ReadsPlugin(g: Runtime, roots: seq<string>, j: nat) {
    && j < |roots| && Lower(roots[j]) !in g.bin && roots[j] in g.plugins
    && forall i | 0 <= i < j :: !(Lower(roots[i]) == Lower(roots[j]) && roots[i] in g.plugins)
  }

  ghost predicate NamedByRoot(roots: seq<string>, k: string) { exists j | 0 <= j < |roots| :: Lower(roots[j]) == k }

  ghost predicate ImportedByPlugin(g: Runtime, roots: seq<string>, k: string) {
    exists j: nat :: ReadsPlugin(g, roots, j) && k in g.plugins[roots[j]]
  }

  ghost predicate Start(g: Runtime, roots: seq<string>, k: string) {
    k in g.bin && (NamedByRoot(roots, k) || ImportedByPlugin(g, roots, k))
  }

  predicate Edge(g: Runtime, a: string, b: string) { a in g.bin && b in g.bin && b in g.bin[a] }

  /** A chain of imports from a start. */
  ghost predicate Path(g: Runtime, roots: seq<string>, p: seq<string>) {
    && p != [] && Start(g, roots, p[0])
    && forall i | 0 <= i < |p| - 1 :: Edge(g, p[i], p[i + 1])
  }

  ghost predicate Reachable(g: Runtime, roots: seq<string>, k: string) {
    exists p :: Path(g, roots, p) && p[|p| - 1] == k
  }

  lemma StartReachable(g: Runtime, roots: seq<string>, k: string)
    requires Start(g, roots, k)
    ensures Reachable(g, roots, k)
  {
    assert Path(g, roots, [k]);
  }

  lemma EdgeReachable(g: Runtime, roots: seq<string>, a: string, b: string)
    requires Reachable(g, roots, a) && Edge(g, a, b)
    ensures Reachable(g, roots, b)
  {
    var p :| Path(g, roots, p) && p[|p| - 1] == a;
    var q := p + [b];
    assert Path(g, roots, q) && q[|q| - 1] == b;
  }

  /** A set with the starts that is closed under imports holds everything reachable. */
  ghost predicate Closed(g: Runtime, roots: seq<string>, s: set<string>) {
    && (forall k | Start(g, roots, k) :: k in s)
    && (forall a, b | a in s && Edge(g, a, b) :: b in s)
  }

  lemma {:induction false} PathStaysIn(g: Runtime, roots: seq<string>, s: set<string>, p: seq<string>)
    requires Closed(g, roots, s) && Path(g, roots, p)
    ensures p[|p| - 1] in s
  {
    if |p| > 1 {
      var q := p[..|p| - 1];
      assert Path(g, roots, q);
      PathStaysIn(g, roots, s, q);
      assert Edge(g, p[|p| - 2], p[|p| - 1]);
    }
  }

  lemma ClosedHasReachable(g: Runtime, roots: seq<string>, s: set<string>, k: string)
    requires Closed(g, roots, s) && Reachable(g, roots, k)
    ensures k in s
  {
    var p :| Path(g, roots, p) && p[|p| - 1] == k;
    PathStaysIn(g, roots, s, p);
  }

  // ---- The worklist ----

  ghost predicate Pending(s: set<string>, queue: seq<string>, k: string) { k in s || k in queue }

  /** Read position in the roots, and bin DLLs appended behind them. */
  ghost predicate QueueInv(g: Runtime, roots: seq<string>, queue: seq<string>, done: nat) {
    && done <= |roots| && |roots| - done <= |queue|
    && (forall i | 0 <= i < |roots| - done :: queue[i] == roots[done + i])
    && (forall i | |roots| - done <= i < |queue| :: queue[i] in g.bin && Reachable(g, roots, queue[i]))
  }

  /** Scanned names are root names or bin DLLs; scanned bin DLLs are reachable and their imports are on the way. */
  ghost predicate ScanInv(g: Runtime, roots: seq<string>, scanned: set<string>, queue: seq<string>) {
    && (forall k | k in scanned :: k in g.bin || NamedByRoot(roots, k))
    && (forall k | k in scanned && k in g.bin :: Reachable(g, roots, k))
    && (forall a, b | a in scanned && Edge(g, a, b) :: Pending(scanned, queue, b))
  }

  ghost predicate ReadBefore(g: Runtime, roots: seq<string>, done: nat, k: string) {
    exists j | 0 <= j < done && j < |roots| :: Lower(roots[j]) == k && roots[j] in g.plugins
  }

  predicate IsFile(g: Runtime, name: string) { Lower(name) in g.bin || name in g.plugins }

  /** The roots read so far are scanned if they are files. */
  ghost predicate RootsScanned(g: Runtime, roots: seq<string>, scanned: set<string>, done: nat) {
    forall j | 0 <= j < done && j < |roots| && IsFile(g, roots[j]) :: Lower(roots[j]) in scanned
  }

  ghost predicate AllPending(g: Runtime, names: set<string>, scanned: set<string>, queue: seq<string>) {
    forall k | k in names && k in g.bin :: Pending(scanned, queue, k)
  }

  /** The imports of the plugins read so far are on the way. */
  ghost predicate PluginsPending(g: Runtime, roots: seq<string>, scanned: set<string>, queue: seq<string>, done: nat) {
    forall j: nat | j < done && ReadsPlugin(g, roots, j) :: AllPending(g, g.plugins[roots[j]], scanned, queue)
  }

  /** Scanned names outside bin are plugins read before. */
  ghost predicate ScannedRead(g: Runtime, roots: seq<string>, scanned: set<string>, done: nat) {
    forall k | k in scanned && k !in g.bin :: ReadBefore(g, roots, done, k)
  }

  method Imports(imports: set<string>, bin: map<string, set<string>>, scanned: set<string>, queue: seq<string>)
    returns (longer: seq<string>)
    ensures queue <= longer
    ensures forall i | |queue| <= i < |longer| :: longer[i] in imports && longer[i] in bin && longer[i] !in scanned
    ensures forall k | k in imports && k in bin && k !in scanned :: k in longer
  {
    longer := queue;
    var left := imports;
    while left != {}
      invariant left <= imports && queue <= longer
      invariant forall i | |queue| <= i < |longer| :: longer[i] in imports && longer[i] in bin && longer[i] !in scanned
      invariant forall k | k in imports - left && k in bin && k !in scanned :: k in longer
      decreases |left|
    {
      var imp :| imp in left;
      left := left - {imp};
      if imp in bin && imp !in scanned {
        longer := longer + [imp];
      }
    }
  }

  ghost predicate LoopInv(g: Runtime, roots: seq<string>, scanned: set<string>, queue: seq<string>, done: nat) {
    && QueueInv(g, roots, queue, done) && ScanInv(g, roots, scanned, queue) && RootsScanned(g, roots, scanned, done)
    && PluginsPending(g, roots, scanned, queue, done) && ScannedRead(g, roots, scanned, done)
  }

  /** The front of the queue is the next root, or a reachable bin DLL once the roots are used up. */
  lemma FrontIs(g: Runtime, roots: seq<string>, queue: seq<string>, done: nat)
    requires QueueInv(g, roots, queue, done) && queue != [] && LowerCase(g)
    ensures done < |roots| ==> queue[0] == roots[done] && NamedByRoot(roots, Lower(queue[0]))
    ensures done == |roots| ==> queue[0] in g.bin && Lower(queue[0]) == queue[0] && Reachable(g, roots, queue[0])
    ensures Lower(queue[0]) in g.bin ==> Reachable(g, roots, Lower(queue[0]))
    ensures QueueInv(g, roots, queue[1..], if done < |roots| then done + 1 else done)
  {
    if done < |roots| {
      assert NamedByRoot(roots, Lower(roots[done]));
      if Lower(queue[0]) in g.bin {
        StartReachable(g, roots, Lower(queue[0]));
      }
    }
  }

  /** What is on its way stays so when the front is taken off and scanned, or was scanned before. */
  lemma PendingMoves(g: Runtime, scanned: set<string>, queue: seq<string>, more: set<string>, longer: seq<string>)
    requires LowerCase(g) && queue != [] && queue[1..] <= longer && scanned <= more
    requires Lower(queue[0]) in g.bin ==> Lower(queue[0]) in more
    ensures forall k | k in g.bin && Pending(scanned, queue, k) :: Pending(more, longer, k)
  {
  }

  function Advance(roots: seq<string>, done: nat): nat { if done < |roots| then done + 1 else done }

  /** Reading the next root, or a bin DLL behind the roots, keeps what is known of the roots. */
  lemma RootsAdvance(g: Runtime, roots: seq<string>, scanned: set<string>, queue: seq<string>, done: nat,
                     more: set<string>, longer: seq<string>)
    requires RootsScanned(g, roots, scanned, done) && PluginsPending(g, roots, scanned, queue, done)
    requires ScannedRead(g, roots, scanned, done)
    requires scanned <= more && forall k | k in g.bin && Pending(scanned, queue, k) :: Pending(more, longer, k)
    requires done < |roots| && IsFile(g, roots[done]) ==> Lower(roots[done]) in more
    requires done < |roots| && ReadsPlugin(g, roots, done) ==> AllPending(g, g.plugins[roots[done]], more, longer)
    requires forall k | k in more && k !in scanned && k !in g.bin ::
      done < |roots| && Lower(roots[done]) == k && roots[done] in g.plugins
    ensures RootsScanned(g, roots, more, Advance(roots, done))
    ensures PluginsPending(g, roots, more, longer, Advance(roots, done))
    ensures ScannedRead(g, roots, more, Advance(roots, done))
  {
  }

  /** Leaving out a name already scanned, or one that is no file, loses nothing. */
  lemma SkipKeeps(g: Runtime, roots: seq<string>, scanned: set<string>, queue: seq<string>, done: nat)
    requires LoopInv(g, roots, scanned, queue, done) && queue != [] && LowerCase(g)
    requires Lower(queue[0]) in scanned || !IsFile(g, queue[0])
    ensures LoopInv(g, roots, scanned, queue[1..], Advance(roots, done))
  {
    FrontIs(g, roots, queue, done);
    PendingMoves(g, scanned, queue, scanned, queue[1..]);
    assert done < |roots| && ReadsPlugin(g, roots, done) ==> Lower(roots[done]) !in scanned by {
      SkippedUnread(g, roots, scanned, done);
    }
    hide Reachable, LowerCase, Lower, QueueInv;
    assert ScanInv(g, roots, scanned, queue[1..]) by { hide RootsScanned, PluginsPending, ScannedRead; }
    hide ScanInv, RootsScanned, PluginsPending, ScannedRead;
    RootsAdvance(g, roots, scanned, queue, done, scanned, queue[1..]);
  }

  /** A plugin about to be read for the first time was not scanned before. */
  lemma SkippedUnread(g: Runtime, roots: seq<string>, scanned: set<string>, done: nat)
    requires ScannedRead(g, roots, scanned, done)
    ensures done < |roots| && ReadsPlugin(g, roots, done) ==> Lower(roots[done]) !in scanned
  {
    hide Lower;
  }

  /** The file at the front is scanned next: `longer` is the queue behind it with its imports appended. */
  ghost predicate Scans(g: Runtime, scanned: set<string>, queue: seq<string>, longer: seq<string>) {
    && queue != [] && queue[1..] <= longer
    && Lower(queue[0]) !in scanned && IsFile(g, queue[0])
    && (var key := Lower(queue[0]);
        var imports := if key in g.bin then g.bin[key] else g.plugins[queue[0]];
        && (forall i | |queue| - 1 <= i < |longer| :: longer[i] in imports && longer[i] in g.bin)
        && (forall k | k in imports && k in g.bin && k !in scanned + {key} :: k in longer))
  }

  lemma ScanKeepsQueue(
    g: Runtime, roots: seq<string>, scanned: set<string>, queue: seq<string>, done: nat, longer: seq<string>)
    requires LoopInv(g, roots, scanned, queue, done) && LowerCase(g) && Scans(g, scanned, queue, longer)
    ensures QueueInv(g, roots, longer, Advance(roots, done))
  {
    FrontIs(g, roots, queue, done);
    NewNamesReachable(g, roots, scanned, queue, done, longer);
    assert forall i | |queue[1..]| <= i < |longer| :: longer[i] in g.bin;
    hide QueueInv, LoopInv, Reachable, LowerCase, Lower;
    QueueExtends(g, roots, queue[1..], Advance(roots, done), longer);
  }

  lemma QueueExtends(g: Runtime, roots: seq<string>, queue: seq<string>, done: nat, longer: seq<string>)
    requires QueueInv(g, roots, queue, done) && queue <= longer
    requires forall i | |queue| <= i < |longer| :: longer[i] in g.bin && Reachable(g, roots, longer[i])
    ensures QueueInv(g, roots, longer, done)
  {
  }

  lemma ScanKeepsScan(
    g: Runtime, roots: seq<string>, scanned: set<string>, queue: seq<string>, done: nat, longer: seq<string>)
    requires LoopInv(g, roots, scanned, queue, done) && LowerCase(g) && Scans(g, scanned, queue, longer)
    ensures ScanInv(g, roots, scanned + {Lower(queue[0])}, longer)
  {
    var key := Lower(queue[0]);
    FrontIs(g, roots, queue, done);
    PendingMoves(g, scanned, queue, scanned + {key}, longer);
    hide Reachable, QueueInv, RootsScanned, PluginsPending, ScannedRead, LowerCase;
    forall a, b | a in scanned + {key} && Edge(g, a, b)
      ensures Pending(scanned + {key}, longer, b)
    {
      if a in scanned {
        assert Pending(scanned, queue, b);
      }
    }
  }

  /** Scanning a file puts its imports on the way. */
  lemma ScanKeeps(
    g: Runtime, roots: seq<string>, scanned: set<string>, queue: seq<string>, done: nat, longer: seq<string>)
    requires LoopInv(g, roots, scanned, queue, done) && LowerCase(g) && Scans(g, scanned, queue, longer)
    ensures LoopInv(g, roots, scanned + {Lower(queue[0])}, longer, Advance(roots, done))
  {
    ScanKeepsQueue(g, roots, scanned, queue, done, longer);
    ScanKeepsScan(g, roots, scanned, queue, done, longer);
    FrontIs(g, roots, queue, done);
    var key := Lower(queue[0]);
    PendingMoves(g, scanned, queue, scanned + {key}, longer);
    assert done < |roots| && ReadsPlugin(g, roots, done) ==>
      AllPending(g, g.plugins[roots[done]], scanned + {key}, longer);
    hide QueueInv, ScanInv, Reachable, RootsScanned, PluginsPending, ScannedRead, LowerCase, Pending, Lower;
    RootsAdvance(g, roots, scanned, queue, done, scanned + {key}, longer);
  }

  lemma NewNamesReachable(
    g: Runtime, roots: seq<string>, scanned: set<string>, queue: seq<string>, done: nat, longer: seq<string>)
    requires LoopInv(g, roots, scanned, queue, done) && LowerCase(g) && Scans(g, scanned, queue, longer)
    ensures forall i | |queue| - 1 <= i < |longer| :: Reachable(g, roots, longer[i])
  {
    FrontIs(g, roots, queue, done);
    var key := Lower(queue[0]);
    forall i | |queue| - 1 <= i < |longer|
      ensures Reachable(g, roots, longer[i])
    {
      if key in g.bin {
        EdgeReachable(g, roots, key, longer[i]);
      } else {
        assert ReadsPlugin(g, roots, done);
        assert ImportedByPlugin(g, roots, longer[i]);
        StartReachable(g, roots, longer[i]);
      }
    }
  }

  /** With the queue empty the scanned bin DLLs are closed. */
  lemma ScannedIsClosed(g: Runtime, roots: seq<string>, scanned: set<string>, done: nat)
    requires LoopInv(g, roots, scanned, [], done)
    ensures Closed(g, roots, scanned)
  {
  }

  /** The loop ends, on cyclic graphs too, and lists exactly the bin DLLs reachable from the files it reads. */
  method Closure(g: Runtime, roots: seq<string>) returns (needed: set<string>)
    requires LowerCase(g)
    ensures forall k :: k in needed <==> Reachable(g, roots, k)
  {
    needed := {};
    var scanned: set<string> := {};
    var queue := roots;
    ghost var done := 0;
    LoopStarts(g, roots);
    hide LoopInv, Reachable, LowerCase, Universe, Lower, Scans, IsFile;
    while queue != []
      invariant LoopInv(g, roots, scanned, queue, done)
      invariant needed == scanned * g.bin.Keys
      decreases |Universe(g, roots) - scanned|, |queue|
    {
      var name := queue[0];
      var key := Lower(name);
      if key in scanned || !IsFile(g, name) {
        SkipKeeps(g, roots, scanned, queue, done);
        queue := queue[1..];
      } else {
        Shrinks(g, roots, scanned, queue, done);
        NeededStep(scanned, key, g.bin.Keys);
        if key in g.bin {
          needed := needed + {key};
        }
        var longer := ScanFile(g, scanned, queue);
        ScanKeeps(g, roots, scanned, queue, done, longer);
        scanned := scanned + {key};
        queue := longer;
      }
      done := Advance(roots, done);
    }
    ExactlyReachable(g, roots, scanned, done);
  }

  lemma NeededStep(scanned: set<string>, key: string, bin: set<string>)
    ensures (scanned + {key}) * bin == if key in bin then scanned * bin + {key} else scanned * bin
  {
  }

  method ScanFile(g: Runtime, scanned: set<string>, queue: seq<string>) returns (longer: seq<string>)
    requires queue != [] && Lower(queue[0]) !in scanned && IsFile(g, queue[0])
    ensures Scans(g, scanned, queue, longer)
  {
    var name, key := queue[0], Lower(queue[0]);
    hide Lower;
    longer := Imports(if key in g.bin then g.bin[key] else g.plugins[name], g.bin, scanned + {key}, queue[1..]);
  }

  lemma LoopStarts(g: Runtime, roots: seq<string>)
    ensures LoopInv(g, roots, {}, roots, 0)
  {
  }

  /** A newly scanned name leaves fewer to scan. */
  lemma Shrinks(g: Runtime, roots: seq<string>, scanned: set<string>, queue: seq<string>, done: nat)
    requires LoopInv(g, roots, scanned, queue, done) && queue != [] && LowerCase(g) && Lower(queue[0]) !in scanned
    ensures |Universe(g, roots) - (scanned + {Lower(queue[0])})| < |Universe(g, roots) - scanned|
  {
  }

  function Universe(g: Runtime, roots: seq<string>): set<string> { g.bin.Keys + set r | r in roots :: Lower(r) }

  lemma ExactlyReachable(g: Runtime, roots: seq<string>, scanned: set<string>, done: nat)
    requires LoopInv(g, roots, scanned, [], done)
    ensures forall k :: k in scanned * g.bin.Keys <==> Reachable(g, roots, k)
  {
    ScannedIsClosed(g, roots, scanned, done);
    hide Reachable, QueueInv, RootsScanned, PluginsPending, ScannedRead, Closed;
    forall k
      ensures k in scanned * g.bin.Keys <==> Reachable(g, roots, k)
    {
      if Reachable(g, roots, k) {
        ClosedHasReachable(g, roots, scanned, k);
        ReachableInBin(g, roots, k);
      }
    }
  }

  lemma ReachableInBin(g: Runtime, roots: seq<string>, k: string)
    requires Reachable(g, roots, k)
    ensures k in g.bin
  {
    var p :| Path(g, roots, p) && p[|p| - 1] == k;
    if |p| > 1 {
      assert Edge(g, p[|p| - 2], p[|p| - 1]);
    }
  }

  // ---- The intended list ----

  // The roots are the listed plugins followed by the core libraries found in bin. A plugin name is meant for the
  // plugin directory and a core name for bin, but the loop looks every name up in bin first.

  ghost predicate ListedPlugin(g: Runtime, plugins: seq<string>, p: string) { p in plugins && p in g.plugins }

  ghost predicate ImportedByListed(g: Runtime, plugins: seq<string>, k: string) {
    exists p :: ListedPlugin(g, plugins, p) && k in g.plugins[p]
  }

  /** Core libraries and the imports of every listed plugin file. */
  ghost predicate FullStart(g: Runtime, plugins: seq<string>, core: seq<string>, k: string) {
    k in g.bin && (NamedByRoot(core, k) || ImportedByListed(g, plugins, k))
  }

  ghost predicate FullPath(g: Runtime, plugins: seq<string>, core: seq<string>, p: seq<string>) {
    p != [] && FullStart(g, plugins, core, p[0]) && forall i | 0 <= i < |p| - 1 :: Edge(g, p[i], p[i + 1])
  }

  /** The bin DLLs the manifest is for: reachable through imports from all listed plugins and core libraries. */
  ghost predicate Wanted(g: Runtime, plugins: seq<string>, core: seq<string>, k: string) {
    exists p :: FullPath(g, plugins, core, p) && p[|p| - 1] == k
  }

  ghost predicate ListsAll(g: Runtime, plugins: seq<string>, core: seq<string>) {
    forall k :: Wanted(g, plugins, core, k) ==> Reachable(g, plugins + core, k)
  }

  ghost predicate ListsOnly(g: Runtime, plugins: seq<string>, core: seq<string>) {
    forall k :: Reachable(g, plugins + core, k) ==> Wanted(g, plugins, core, k)
  }

  ghost predicate CoreFound(g: Runtime, core: seq<string>) { forall c | c in core :: Lower(c) in g.bin }

  /** No two different plugin files of the list have the same name up to case; listing one twice is no clash. */
  ghost predicate NoClash(g: Runtime, plugins: seq<string>) {
    forall p, q | ListedPlugin(g, plugins, p) && ListedPlugin(g, plugins, q) && Lower(p) == Lower(q) :: p == q
  }

  /** No listed plugin file has the name of a bin DLL up to case. */
  ghost predicate NoShadow(g: Runtime, plugins: seq<string>) {
    forall p | ListedPlugin(g, plugins, p) :: Lower(p) !in g.bin
  }

  ghost predicate AllNamed(g: Runtime, roots: seq<string>) { forall k | k in g.bin :: NamedByRoot(roots, k) }

  /** Every bin DLL with the name of a listed plugin is a core library as well. */
  ghost predicate NoIntruder(g: Runtime, plugins: seq<string>, core: seq<string>) {
    forall k | k in g.bin && NamedByRoot(plugins, k) :: NamedByRoot(core, k)
  }

  lemma NamedByEither(plugins: seq<string>, core: seq<string>, k: string)
    ensures NamedByRoot(plugins + core, k) <==> NamedByRoot(plugins, k) || NamedByRoot(core, k)
  {
    hide Lower;
    var roots := plugins + core;
    if NamedByRoot(plugins, k) {
      var j :| 0 <= j < |plugins| && Lower(plugins[j]) == k;
      assert roots[j] == plugins[j];
    }
    if NamedByRoot(core, k) {
      var j :| 0 <= j < |core| && Lower(core[j]) == k;
      assert roots[|plugins| + j] == core[j];
    }
  }

  /** What the loop starts from is wanted, or a bin DLL with the name of a plugin. */
  lemma ReadIsListed(g: Runtime, plugins: seq<string>, core: seq<string>, k: string)
    requires CoreFound(g, core) && Start(g, plugins + core, k)
    ensures FullStart(g, plugins, core, k) || NamedByRoot(plugins, k)
  {
    hide Lower;
    var roots := plugins + core;
    NamedByEither(plugins, core, k);
    if ImportedByPlugin(g, roots, k) {
      var j: nat :| ReadsPlugin(g, roots, j) && k in g.plugins[roots[j]];
      assert forall i | |plugins| <= i < |roots| :: roots[i] in core;
      assert ListedPlugin(g, plugins, roots[j]);
    }
  }

  lemma EdgeWanted(g: Runtime, plugins: seq<string>, core: seq<string>, a: string, b: string)
    requires Wanted(g, plugins, core, a) && Edge(g, a, b)
    ensures Wanted(g, plugins, core, b)
  {
    var p :| FullPath(g, plugins, core, p) && p[|p| - 1] == a;
    var q := p + [b];
    assert FullPath(g, plugins, core, q) && q[|q| - 1] == b;
  }

  lemma LastStep(g: Runtime, plugins: seq<string>, core: seq<string>, p: seq<string>)
    requires FullPath(g, plugins, core, p)
    ensures if |p| == 1 then FullStart(g, plugins, core, p[0]) else Edge(g, p[|p| - 2], p[|p| - 1])
  {
  }

  lemma StartWanted(g: Runtime, plugins: seq<string>, core: seq<string>, k: string)
    requires FullStart(g, plugins, core, k)
    ensures Wanted(g, plugins, core, k)
  {
    assert FullPath(g, plugins, core, [k]);
  }

  lemma {:induction false} PathWanted(g: Runtime, plugins: seq<string>, core: seq<string>, p: seq<string>)
    requires Path(g, plugins + core, p) && forall k | Start(g, plugins + core, k) :: Wanted(g, plugins, core, k)
    ensures Wanted(g, plugins, core, p[|p| - 1])
  {
    if |p| > 1 {
      var q := p[..|p| - 1];
      assert Path(g, plugins + core, q);
      hide Start, Wanted;
      PathWanted(g, plugins, core, q);
      assert Edge(g, p[|p| - 2], p[|p| - 1]);
      EdgeWanted(g, plugins, core, p[|p| - 2], p[|p| - 1]);
    }
  }

  /** For one import table: nothing but wanted DLLs is listed exactly if the bin DLLs with plugin names are wanted. */
  lemma ListsOnlyIff(g: Runtime, plugins: seq<string>, core: seq<string>)
    requires CoreFound(g, core)
    ensures ListsOnly(g, plugins, core) <==>
      forall k | k in g.bin && NamedByRoot(plugins, k) :: Wanted(g, plugins, core, k)
  {
    var roots := plugins + core;
    hide Wanted, Reachable;
    if ListsOnly(g, plugins, core) {
      forall k | k in g.bin && NamedByRoot(plugins, k)
        ensures Wanted(g, plugins, core, k)
      {
        NamedByEither(plugins, core, k);
        StartReachable(g, roots, k);
      }
    } else {
      var k :| Reachable(g, roots, k) && !Wanted(g, plugins, core, k);
      if forall k | k in g.bin && NamedByRoot(plugins, k) :: Wanted(g, plugins, core, k) {
        StartsWanted(g, plugins, core);
        ReachableWanted(g, plugins, core, k);
      }
    }
  }

  lemma StartsWanted(g: Runtime, plugins: seq<string>, core: seq<string>)
    requires CoreFound(g, core) && forall k | k in g.bin && NamedByRoot(plugins, k) :: Wanted(g, plugins, core, k)
    ensures forall k | Start(g, plugins + core, k) :: Wanted(g, plugins, core, k)
  {
    forall k | Start(g, plugins + core, k)
      ensures Wanted(g, plugins, core, k)
    {
      ReadIsListed(g, plugins, core, k);
      if !NamedByRoot(plugins, k) {
        StartWanted(g, plugins, core, k);
      }
    }
  }

  lemma ReachableWanted(g: Runtime, plugins: seq<string>, core: seq<string>, k: string)
    requires Reachable(g, plugins + core, k) && forall k | Start(g, plugins + core, k) :: Wanted(g, plugins, core, k)
    ensures Wanted(g, plugins, core, k)
  {
    var p :| Path(g, plugins + core, p) && p[|p| - 1] == k;
    PathWanted(g, plugins, core, p);
  }

  /** If every such DLL is a core library, whatever the loop lists is wanted. */
  lemma ListsOnlyWanted(g: Runtime, plugins: seq<string>, core: seq<string>)
    requires CoreFound(g, core) && NoIntruder(g, plugins, core)
    ensures ListsOnly(g, plugins, core)
  {
    hide Wanted, Reachable, Lower;
    forall k | k in g.bin && NamedByRoot(plugins, k)
      ensures Wanted(g, plugins, core, k)
    {
      StartWanted(g, plugins, core, k);
    }
    ListsOnlyIff(g, plugins, core);
  }

  /** The spelling of a plugin root that is read. */
  lemma {:induction false} FirstSpelling(g: Runtime, roots: seq<string>, j: nat) returns (f: nat)
    requires j < |roots| && Lower(roots[j]) !in g.bin && roots[j] in g.plugins
    ensures f <= j && ReadsPlugin(g, roots, f) && Lower(roots[f]) == Lower(roots[j])
    decreases j
  {
    hide Lower;
    f := j;
    if !ReadsPlugin(g, roots, j) {
      var i :| 0 <= i < j && Lower(roots[i]) == Lower(roots[j]) && roots[i] in g.plugins;
      f := FirstSpelling(g, roots, i);
    }
  }

  /** The same for a listed plugin that no bin DLL shadows: the one read is listed, too. */
  lemma ReadSpelling(g: Runtime, plugins: seq<string>, core: seq<string>, p: string) returns (f: nat)
    requires CoreFound(g, core) && ListedPlugin(g, plugins, p) && Lower(p) !in g.bin
    ensures ReadsPlugin(g, plugins + core, f) && f < |plugins|
    ensures Lower(plugins[f]) == Lower(p) && ListedPlugin(g, plugins, plugins[f])
  {
    hide Lower;
    var j :| 0 <= j < |plugins| && plugins[j] == p;
    assert (plugins + core)[j] == p;
    f := FirstSpelling(g, plugins + core, j);
  }

  lemma {:induction false} FullPathReachable(g: Runtime, plugins: seq<string>, core: seq<string>, p: seq<string>)
    requires FullPath(g, plugins, core, p)
    requires forall k | FullStart(g, plugins, core, k) :: Reachable(g, plugins + core, k)
    ensures Reachable(g, plugins + core, p[|p| - 1])
  {
    if |p| > 1 {
      var q := p[..|p| - 1];
      assert FullPath(g, plugins, core, q);
      hide FullStart, Reachable;
      FullPathReachable(g, plugins, core, q);
      assert Edge(g, p[|p| - 2], p[|p| - 1]);
      EdgeReachable(g, plugins + core, p[|p| - 2], p[|p| - 1]);
    }
  }

  ghost predicate ImportsReachable(g: Runtime, plugins: seq<string>, core: seq<string>) {
    forall k | ImportedByListed(g, plugins, k) && k in g.bin :: Reachable(g, plugins + core, k)
  }

  /** For one import table: everything wanted is listed exactly if the direct imports of every listed plugin are. */
  lemma ListsAllIff(g: Runtime, plugins: seq<string>, core: seq<string>)
    ensures ListsAll(g, plugins, core) <==> ImportsReachable(g, plugins, core)
  {
    hide Reachable, Lower;
    if ListsAll(g, plugins, core) {
      forall k | ImportedByListed(g, plugins, k) && k in g.bin
        ensures Reachable(g, plugins + core, k)
      {
        StartWanted(g, plugins, core, k);
      }
    } else {
      var k :| Wanted(g, plugins, core, k) && !Reachable(g, plugins + core, k);
      var p :| FullPath(g, plugins, core, p) && p[|p| - 1] == k;
      if ImportsReachable(g, plugins, core) {
        StartsReachable(g, plugins, core);
        FullPathReachable(g, plugins, core, p);
      }
    }
  }

  lemma StartsReachable(g: Runtime, plugins: seq<string>, core: seq<string>)
    requires ImportsReachable(g, plugins, core)
    ensures forall k | FullStart(g, plugins, core, k) :: Reachable(g, plugins + core, k)
  {
    hide Reachable, Lower;
    forall k | FullStart(g, plugins, core, k)
      ensures Reachable(g, plugins + core, k)
    {
      if NamedByRoot(core, k) {
        NamedByEither(plugins, core, k);
        StartReachable(g, plugins + core, k);
      }
    }
  }

  /** If no listed plugin clashes with another or is shadowed by a bin DLL, everything wanted is listed. */
  lemma NoClashListsAll(g: Runtime, plugins: seq<string>, core: seq<string>)
    requires CoreFound(g, core) && NoClash(g, plugins) && NoShadow(g, plugins)
    ensures ListsAll(g, plugins, core)
  {
    hide Reachable, Lower;
    forall k | ImportedByListed(g, plugins, k) && k in g.bin
      ensures Reachable(g, plugins + core, k)
    {
      var p :| ListedPlugin(g, plugins, p) && k in g.plugins[p];
      var f := ReadSpelling(g, plugins, core, p);
      assert plugins[f] == p && (plugins + core)[f] == p;
      assert ImportedByPlugin(g, plugins + core, k);
      StartReachable(g, plugins + core, k);
    }
    ListsAllIff(g, plugins, core);
  }

  lemma AllNamedListsAll(g: Runtime, plugins: seq<string>, core: seq<string>)
    requires AllNamed(g, plugins + core)
    ensures ListsAll(g, plugins, core)
  {
    hide Lower, Reachable;
    forall k | ImportedByListed(g, plugins, k) && k in g.bin
      ensures Reachable(g, plugins + core, k)
    {
      StartReachable(g, plugins + core, k);
    }
    ListsAllIff(g, plugins, core);
  }

  // ---- Which lists are safe for every import table ----

  predicate SameFiles(g: Runtime, h: Runtime) {
    g.files == h.files && g.bin.Keys == h.bin.Keys && g.plugins.Keys == h.plugins.Keys
  }

  /** The table in which plugin `q` imports `x` and nothing else imports anything. */
  function OnlyImport(g: Runtime, q: string, x: string): Runtime {
    Runtime(g.files, map k | k in g.bin :: {}, map p | p in g.plugins :: if p == q then {x} else {})
  }

  lemma OnlyImportLower(g: Runtime, q: string, x: string)
    requires LowerCase(g) && Lower(x) == x
    ensures SameFiles(g, OnlyImport(g, q, x)) && LowerCase(OnlyImport(g, q, x))
  {
  }

  /** A listed plugin that is never read: a bin DLL has its name, or another spelling comes first. */
  ghost predicate Unread(g: Runtime, roots: seq<string>, q: string) {
    forall j: nat | ReadsPlugin(g, roots, j) :: roots[j] != q
  }

  lemma ClashHasUnread(g: Runtime, plugins: seq<string>, core: seq<string>) returns (q: string)
    requires CoreFound(g, core) && !(NoClash(g, plugins) && NoShadow(g, plugins))
    ensures ListedPlugin(g, plugins, q) && Unread(g, plugins + core, q)
  {
    hide Lower;
    if !NoShadow(g, plugins) {
      q :| ListedPlugin(g, plugins, q) && Lower(q) in g.bin;
    } else {
      var p, r :| ListedPlugin(g, plugins, p) && ListedPlugin(g, plugins, r) && Lower(p) == Lower(r) && p != r;
      var f := ReadSpelling(g, plugins, core, p);
      q := if plugins[f] == p then r else p;
      OneSpelling(g, plugins + core, f, q);
    }
  }

  lemma OneSpelling(g: Runtime, roots: seq<string>, f: nat, q: string)
    requires ReadsPlugin(g, roots, f) && Lower(roots[f]) == Lower(q) && roots[f] != q
    ensures Unread(g, roots, q)
  {
    hide Lower;
  }

  /** In a table where only an unread plugin imports something, the loop finds the named DLLs alone. */
  lemma OnlyNamedReachable(g: Runtime, roots: seq<string>, q: string, x: string, k: string)
    requires Unread(g, roots, q) && Reachable(OnlyImport(g, q, x), roots, k)
    ensures NamedByRoot(roots, k)
  {
    hide Lower, Reachable;
    var h := OnlyImport(g, q, x);
    var named := set k | k in h.bin && NamedByRoot(roots, k);
    assert Closed(h, roots, named) by {
      forall k | Start(h, roots, k)
        ensures k in named
      {
        OnlyNamedStart(g, roots, q, x, k);
      }
    }
    ClosedHasReachable(h, roots, named, k);
  }

  lemma OnlyNamedStart(g: Runtime, roots: seq<string>, q: string, x: string, k: string)
    requires Unread(g, roots, q) && Start(OnlyImport(g, q, x), roots, k)
    ensures NamedByRoot(roots, k)
  {
    hide Lower;
    var h := OnlyImport(g, q, x);
    assert forall j: nat :: ReadsPlugin(h, roots, j) == ReadsPlugin(g, roots, j);
  }

  /** An unread plugin loses its import. */
  lemma UnreadLoses(g: Runtime, plugins: seq<string>, core: seq<string>, q: string, x: string)
    requires ListedPlugin(g, plugins, q) && Unread(g, plugins + core, q)
    requires x in g.bin && !NamedByRoot(plugins + core, x)
    ensures !ListsAll(OnlyImport(g, q, x), plugins, core)
  {
    hide Lower, Reachable;
    var h := OnlyImport(g, q, x);
    assert ListedPlugin(h, plugins, q) && ImportedByListed(h, plugins, x);
    StartWanted(h, plugins, core, x);
    if Reachable(h, plugins + core, x) {
      OnlyNamedReachable(g, plugins + core, q, x, x);
    }
  }

  lemma SameListed(g: Runtime, h: Runtime, plugins: seq<string>, core: seq<string>)
    requires SameFiles(g, h)
    ensures NoClash(g, plugins) == NoClash(h, plugins) && NoShadow(g, plugins) == NoShadow(h, plugins)
    ensures CoreFound(g, core) == CoreFound(h, core) && AllNamed(g, plugins + core) == AllNamed(h, plugins + core)
    ensures NoIntruder(g, plugins, core) == NoIntruder(h, plugins, core)
  {
    hide Lower;
    assert forall p :: ListedPlugin(g, plugins, p) == ListedPlugin(h, plugins, p);
    assert forall k :: k in g.bin <==> k in h.bin;
  }

  ghost predicate AlwaysListsAll(g: Runtime, plugins: seq<string>, core: seq<string>) {
    forall h | SameFiles(g, h) && LowerCase(h) :: ListsAll(h, plugins, core)
  }

  ghost predicate AlwaysListsOnly(g: Runtime, plugins: seq<string>, core: seq<string>) {
    forall h | SameFiles(g, h) && LowerCase(h) :: ListsOnly(h, plugins, core)
  }

  /**
   Which lists of plugins are complete, whatever the files import: the worklist finds everything wanted for every
   import table exactly if no two listed plugins clash and none is shadowed, or every bin DLL is a root anyway.
   */
  lemma ListsAllForEveryTableIff(g: Runtime, plugins: seq<string>, core: seq<string>)
    requires LowerCase(g) && CoreFound(g, core)
    ensures AlwaysListsAll(g, plugins, core)
      <==> (NoClash(g, plugins) && NoShadow(g, plugins)) || AllNamed(g, plugins + core)
  {
    hide Lower, LowerCase, ListsAll;
    if (NoClash(g, plugins) && NoShadow(g, plugins)) || AllNamed(g, plugins + core) {
      forall h | SameFiles(g, h) && LowerCase(h)
        ensures ListsAll(h, plugins, core)
      {
        SameListed(g, h, plugins, core);
        if AllNamed(h, plugins + core) {
          AllNamedListsAll(h, plugins, core);
        } else {
          NoClashListsAll(h, plugins, core);
        }
      }
    } else {
      var q := ClashHasUnread(g, plugins, core);
      var x :| x in g.bin && !NamedByRoot(plugins + core, x);
      LowerKey(g, x);
      OnlyImportLower(g, q, x);
      UnreadLoses(g, plugins, core, q, x);
    }
  }

  lemma LowerKey(g: Runtime, x: string)
    requires LowerCase(g) && x in g.bin
    ensures Lower(x) == x
  {
  }

  /**
   Which lists are free of unwanted DLLs, whatever the files import: exactly those where every bin DLL with the
   name of a listed plugin is a core library as well.
   */
  lemma ListsOnlyForEveryTableIff(g: Runtime, plugins: seq<string>, core: seq<string>)
    requires LowerCase(g) && CoreFound(g, core)
    ensures AlwaysListsOnly(g, plugins, core) <==> NoIntruder(g, plugins, core)
  {
    hide Lower, LowerCase, ListsOnly;
    if NoIntruder(g, plugins, core) {
      forall h | SameFiles(g, h) && LowerCase(h)
        ensures ListsOnly(h, plugins, core)
      {
        SameListed(g, h, plugins, core);
        ListsOnlyWanted(h, plugins, core);
      }
    } else {
      var k :| k in g.bin && NamedByRoot(plugins, k) && !NamedByRoot(core, k);
      var h := NoImports(g);
      NoImportsLower(g);
      SameListed(g, h, plugins, core);
      IntruderUnwanted(g, plugins, core, k);
      ListsOnlyIff(h, plugins, core);
    }
  }

  function NoImports(g: Runtime): Runtime {
    Runtime(g.files, map k | k in g.bin :: {}, map p | p in g.plugins :: {})
  }

  lemma NoImportsLower(g: Runtime)
    requires LowerCase(g)
    ensures SameFiles(g, NoImports(g)) && LowerCase(NoImports(g))
  {
  }

  lemma IntruderUnwanted(g: Runtime, plugins: seq<string>, core: seq<string>, k: string)
    requires !NamedByRoot(core, k)
    ensures !Wanted(NoImports(g), plugins, core, k)
  {
    hide Lower;
    var h := NoImports(g);
    if p :| FullPath(h, plugins, core, p) && p[|p| - 1] == k {
      LastStep(h, plugins, core, p);
    }
  }

  // ---- The whole script ----

  /** The core libraries that exist in bin under their exact names. */
  function Found(g: Runtime, names: seq<string>): (core: seq<string>)
    ensures forall c | c in core :: c in names && c in g.files
  {
    if names == [] then []
    else if names[0] in g.files then [names[0]] + Found(g, names[1..])
    else Found(g, names[1..])
  }

  method FindCore(g: Runtime, names: seq<string>) returns (core: seq<string>)
    ensures core == Found(g, names)
  {
    core := [];
    var i := |names|;
    while i > 0
      invariant 0 <= i <= |names| && core == Found(g, names[i..])
    {
      i := i - 1;
      assert names[i..][1..] == names[i + 1..];
      if names[i] in g.files {
        core := [names[i]] + core;
      }
    }
  }

  /** It stops at a missing plugin, and otherwise lists what is wanted, exactly for lists that are safe. */
  method Manifest(g: Runtime, plugins: seq<string>, names: seq<string>) returns (r: Option<set<string>>)
    requires LowerCase(g)
    ensures r == None <==> exists p :: p in plugins && p !in g.plugins
    ensures r.Some? ==> forall k :: k in r.value <==> Reachable(g, plugins + Found(g, names), k)
    ensures r.Some? && NoClash(g, plugins) && NoShadow(g, plugins) ==>
      forall k :: k in r.value <==> Wanted(g, plugins, Found(g, names), k)
  {
    if p :| p in plugins && p !in g.plugins {
      return None;
    }
    var core := FindCore(g, names);
    var needed := Closure(g, plugins + core);
    CoreIsFound(g, names);
    hide Reachable, Wanted, LowerCase, Lower;
    if NoClash(g, plugins) && NoShadow(g, plugins) {
      NoClashListsAll(g, plugins, core);
      NoShadowNoIntruder(g, plugins, core);
      ListsOnlyWanted(g, plugins, core);
    }
    r := Some(needed);
  }

  lemma CoreIsFound(g: Runtime, names: seq<string>)
    requires LowerCase(g)
    ensures CoreFound(g, Found(g, names))
  {
  }

  lemma NoShadowNoIntruder(g: Runtime, plugins: seq<string>, core: seq<string>)
    requires NoShadow(g, plugins) && forall p | p in plugins :: p in g.plugins
    ensures NoIntruder(g, plugins, core)
  {
    hide Lower;
    assert forall j | 0 <= j < |plugins| :: ListedPlugin(g, plugins, plugins[j]) && Lower(plugins[j]) !in g.bin;
  }

  const Clash: Runtime := Runtime({"x"}, map["x" := {}], map["P" := {}, "p" := {"x"}])

  /** An example: of two such plugins only the first listed is read, and the other's import is missing. */
  lemma ClashLosesImports()
    ensures !Reachable(Clash, ["P", "p"], "x") && Reachable(Clash, ["p", "P"], "x")
    ensures Wanted(Clash, ["P", "p"], [], "x")
  {
    assert Lower("P") == "p" && Lower("p") == "p" && Lower("x") == "x";
    hide Lower;
    assert ReadsPlugin(Clash, ["p", "P"], 0);
    assert ImportedByPlugin(Clash, ["p", "P"], "x");
    StartReachable(Clash, ["p", "P"], "x");
    var roots := ["P", "p"];
    assert ListedPlugin(Clash, roots, "p") && ImportedByListed(Clash, roots, "x");
    StartWanted(Clash, roots, [], "x");
    assert Lower(roots[0]) == Lower(roots[1]) && roots[0] in Clash.plugins;
    assert !ReadsPlugin(Clash, roots, 1);
    assert !Start(Clash, ["P", "p"], "x");
    assert Closed(Clash, ["P", "p"], {});
    if Reachable(Clash, ["P", "p"], "x") {
      ClosedHasReachable(Clash, ["P", "p"], {}, "x");
    }
  }

  const Shadow: Runtime := Runtime({"p", "x"}, map["p" := {}, "x" := {}], map["p" := {"x"}])

  /** An example: a plugin with the name of a bin DLL is never read; its import is missing and the DLL is listed. */
  lemma ShadowLosesImports()
    ensures Wanted(Shadow, ["p"], [], "x") && !Reachable(Shadow, ["p"], "x")
    ensures !Wanted(Shadow, ["p"], [], "p") && Reachable(Shadow, ["p"], "p")
  {
    assert Lower("p") == "p" && Lower("x") == "x";
    hide Lower;
    assert ListedPlugin(Shadow, ["p"], "p") && ImportedByListed(Shadow, ["p"], "x");
    StartWanted(Shadow, ["p"], [], "x");
    assert NamedByRoot(["p"], "p") by { assert Lower(["p"][0]) == "p"; }
    StartReachable(Shadow, ["p"], "p");
    assert Closed(Shadow, ["p"], {"p"});
    if Reachable(Shadow, ["p"], "x") {
      ClosedHasReachable(Shadow, ["p"], {"p"}, "x");
    }
    if q :| FullPath(Shadow, ["p"], [], q) && q[|q| - 1] == "p" {
      LastStep(Shadow, ["p"], [], q);
    }
  }
}
