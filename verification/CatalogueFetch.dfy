/**
 Paginated retrieval of a peer's signed catalogue (src/catalogue_client.rs) against an arbitrary server: a
 function of the request number and the request. The honest server at the end is the page and catalogue
 handler (src/catalogue_handler/serve.rs) behind its per-peer request limiter.
 */
module CatalogueFetch {
  import opened Basics

  datatype Result<T> = Ok(value: T) | Err(error: FetchError)

  datatype FetchError =
    | PermissionDenied
    | IncompleteCatalogue
    | RevisionChangedTo(revision: nat)
    | SignatureInvalid
    | ProtocolError
    | Unavailable

  type Peer = nat
  datatype File = File(hash: string, updatedAt: nat, id: string)
  datatype Cursor = Cursor(owner: Peer, requester: Peer, revision: nat, updatedAt: nat, id: string)
  datatype Page = Page(revision: nat, items: seq<File>, next: Option<Cursor>)
  datatype Catalogue = Catalogue(owner: Peer, revision: nat, issuedAt: nat, files: seq<File>, signature: string)

  datatype Request =
    | GetPage(known: Option<nat>, cursor: Option<Cursor>, pageSize: nat)
    | GetSigned(known: Option<nat>)

  datatype ErrorCode = Denied | OtherCode

  /** `Lost` covers connection failures and timeouts; `Unexpected` every other well-formed response. */
  datatype Reply =
    | PageReply(page: Page)
    | SignedReply(catalogue: Catalogue)
    | NotModified(revision: nat)
    | RevisionChanged(newRevision: nat)
    | Failed(code: ErrorCode)
    | Unexpected
    | Lost

  type Server = (nat, Request) -> Reply

  /** The signature check and the structural validation of a signed catalogue. */
  datatype Checks = Checks(genuine: Catalogue -> bool, wellFormed: Catalogue -> bool)

  const MAX_CATALOGUE_FILES: nat := 10_000
  const MAX_CATALOGUE_PAGE_SIZE: nat := 500

  function PageSize(requested: nat): (size: nat)
    ensures 1 <= size <= MAX_CATALOGUE_PAGE_SIZE
  {
    if requested == 0 || requested > MAX_CATALOGUE_PAGE_SIZE then MAX_CATALOGUE_PAGE_SIZE else requested
  }

  function MaxPages(size: nat): nat
    requires size > 0
  {
    MAX_CATALOGUE_FILES / size + 2
  }

  // ---- Walking the pages ----

  function KnownAfter(pages: seq<Page>): Option<nat> {
    if pages == [] then None else Some(pages[0].revision)
  }

  function CursorAfter(pages: seq<Page>): Option<Cursor> {
    if pages == [] then None else pages[|pages| - 1].next
  }

  function NextRequest(pages: seq<Page>, size: nat): Request {
    GetPage(KnownAfter(pages), CursorAfter(pages), size)
  }

  function Walk(server: Server, size: nat, pages: seq<Page>): Result<seq<Page>>
    requires size > 0
    decreases MaxPages(size) - |pages|
  {
    if |pages| >= MaxPages(size) then Err(ProtocolError) else
    match server(|pages|, NextRequest(pages, size))
    case PageReply(page) =>
      if pages != [] && page.revision != pages[0].revision then Err(RevisionChangedTo(page.revision))
      else if page.next.Some? then Walk(server, size, pages + [page])
      else Ok(pages + [page])
    case RevisionChanged(r) => Err(RevisionChangedTo(r))
    case Failed(code) => Err(if code == Denied then PermissionDenied else ProtocolError)
    case Lost => Err(Unavailable)
    case _ => Err(ProtocolError)
  }

  /** Page `i` of `all` is what the server answers to the pages before it. */
  predicate Answered(server: Server, size: nat, all: seq<Page>, i: nat)
    requires i < |all|
  {
    && server(i, NextRequest(all[..i], size)) == PageReply(all[i])
    && all[i].revision == all[0].revision
    && (all[i].next.Some? <==> i < |all| - 1)
  }

  /** One revision, linked by the server's own cursors, ending with the first page that has none. */
  ghost predicate Chain(server: Server, size: nat, all: seq<Page>)
    requires size > 0
  {
    1 <= |all| <= MaxPages(size) && forall i: nat | i < |all| :: Answered(server, size, all, i)
  }

  lemma {:induction false} WalkOk(server: Server, size: nat, pages: seq<Page>, all: seq<Page>)
    requires size > 0
    requires forall i | 0 <= i < |pages| :: pages[i].revision == pages[0].revision
    ensures Walk(server, size, pages) == Ok(all) <==>
      && |pages| < |all| <= MaxPages(size) && all[..|pages|] == pages
      && forall i: nat | |pages| <= i < |all| :: Answered(server, size, all, i)
    decreases MaxPages(size) - |pages|
  {
    var n := |pages|;
    if n < MaxPages(size) {
      var reply := server(n, NextRequest(pages, size));
      if reply.PageReply? && (pages == [] || reply.page.revision == pages[0].revision) {
        var more := pages + [reply.page];
        if reply.page.next.Some? {
          WalkOk(server, size, more, all);
          if n < |all| && all[..n] == pages && Answered(server, size, all, n) {
            assert all[..n + 1] == all[..n] + [all[n]] == more;
          }
          if n + 1 < |all| && all[..n + 1] == more {
            assert all[..n] == more[..n] == pages && all[n] == more[n] && all[0] == more[0];
            assert Answered(server, size, all, n);
          }
        } else {
          if n < |all| && all[..n] == pages && Answered(server, size, all, n) {
            assert all == all[..n] + [all[n]] == more;
          }
          if all == more {
            assert all[..n] == pages;
          }
        }
      } else if n < |all| && all[..n] == pages {
        assert !Answered(server, size, all, n);
      }
    }
  }

  lemma WalkOkIff(server: Server, size: nat, all: seq<Page>)
    requires size > 0
    ensures Walk(server, size, []) == Ok(all) <==> Chain(server, size, all)
  {
    WalkOk(server, size, [], all);
  }

  // ---- How a walk fails ----

  /** Pages of one revision, each with a cursor to the next, as the server answers them. */
  ghost predicate Partial(server: Server, size: nat, pages: seq<Page>)
    requires size > 0
  {
    && |pages| <= MaxPages(size)
    && forall i | 0 <= i < |pages| ::
         && server(i, NextRequest(pages[..i], size)) == PageReply(pages[i])
         && pages[i].revision == pages[0].revision && pages[i].next.Some?
  }

  /** What a reply that is no further page of the same revision means to the client. */
  predicate Ends(pages: seq<Page>, reply: Reply, e: FetchError) {
    match e
    case RevisionChangedTo(r) =>
      || reply == RevisionChanged(r)
      || (reply.PageReply? && pages != [] && reply.page.revision == r && r != pages[0].revision)
    case PermissionDenied => reply == Failed(Denied)
    case Unavailable => reply == Lost
    case ProtocolError => reply == Failed(OtherCode) || reply.SignedReply? || reply.NotModified? || reply.Unexpected?
    case _ => false
  }

  /** The walk stops with `e` after these pages: at the page bound, or by the next reply. */
  ghost predicate Stops(server: Server, size: nat, pages: seq<Page>, e: FetchError)
    requires size > 0
  {
    && Partial(server, size, pages)
    && (if |pages| == MaxPages(size) then e == ProtocolError
        else Ends(pages, server(|pages|, NextRequest(pages, size)), e))
  }

  lemma PartialSnoc(server: Server, size: nat, pages: seq<Page>, page: Page)
    requires size > 0 && Partial(server, size, pages) && |pages| < MaxPages(size)
    requires server(|pages|, NextRequest(pages, size)) == PageReply(page) && page.next.Some?
    requires pages != [] ==> page.revision == pages[0].revision
    ensures Partial(server, size, pages + [page])
  {
    var all := pages + [page];
    hide NextRequest, MaxPages;
    assert all[..|pages|] == pages;
    assert forall i | 0 <= i < |pages| :: all[..i] == pages[..i];
  }

  lemma {:induction false} WalkStops(server: Server, size: nat, pages: seq<Page>, e: FetchError)
    returns (all: seq<Page>)
    requires size > 0 && Partial(server, size, pages) && Walk(server, size, pages) == Err(e)
    ensures Stops(server, size, all, e)
    decreases MaxPages(size) - |pages|
  {
    all := pages;
    if |pages| < MaxPages(size) {
      var reply := server(|pages|, NextRequest(pages, size));
      hide NextRequest, MaxPages, Partial;
      if reply.PageReply? && (pages == [] || reply.page.revision == pages[0].revision) {
        PartialSnoc(server, size, pages, reply.page);
        all := WalkStops(server, size, pages + [reply.page], e);
      }
    }
  }

  /** The walk comes by every page on the way to where it stops. */
  lemma {:induction false} WalkFollows(server: Server, size: nat, pages: seq<Page>, i: nat)
    requires size > 0 && Partial(server, size, pages) && i <= |pages|
    ensures Walk(server, size, pages[..i]) == Walk(server, size, pages)
    decreases |pages| - i
  {
    if i < |pages| {
      WalkFollows(server, size, pages, i + 1);
      assert server(i, NextRequest(pages[..i], size)) == PageReply(pages[i]);
      hide NextRequest;
      assert pages[..i + 1] == pages[..i] + [pages[i]];
    } else {
      assert pages[..i] == pages;
    }
  }

  /**
   The walk fails with `e` exactly if, after some pages of one revision linked by cursors, it reaches the page
   bound or gets a reply that means `e`. A changed catalogue is reported with the server's new revision.
   */
  lemma WalkErrIff(server: Server, size: nat, e: FetchError)
    requires size > 0
    ensures Walk(server, size, []) == Err(e) <==> exists pages :: Stops(server, size, pages, e)
  {
    if Walk(server, size, []) == Err(e) {
      var pages := WalkStops(server, size, [], e);
      assert Stops(server, size, pages, e);
    }
    if pages :| Stops(server, size, pages, e) {
      WalkFollows(server, size, pages, 0);
      assert pages[..0] == [];
    }
  }

  /** Request `i` asks for the first page, or for the one behind the cursor of the page before. */
  function PageRequest(pages: seq<Page>, i: nat, size: nat): Request
    requires i <= |pages|
  {
    if i == 0 then GetPage(None, None, size) else GetPage(Some(pages[0].revision), pages[i - 1].next, size)
  }

  /** These requests were sent, in this order, and answered by these pages. */
  ghost predicate Traced(server: Server, size: nat, pages: seq<Page>, trace: seq<Request>) {
    && |trace| == |pages|
    && forall i: nat | i < |trace| ::
         trace[i] == PageRequest(pages, i, size) && server(i, trace[i]) == PageReply(pages[i])
  }

  lemma TracedStart(server: Server, size: nat)
    ensures Traced(server, size, [], [])
  {
  }

  lemma RequestStays(pages: seq<Page>, page: Page, i: nat, size: nat)
    requires i <= |pages|
    ensures PageRequest(pages + [page], i, size) == PageRequest(pages, i, size)
    ensures NextRequest(pages, size) == PageRequest(pages, |pages|, size)
  {
  }

  lemma TracedSnoc(server: Server, size: nat, pages: seq<Page>, trace: seq<Request>, page: Page)
    requires Traced(server, size, pages, trace) && server(|pages|, NextRequest(pages, size)) == PageReply(page)
    ensures Traced(server, size, pages + [page], trace + [NextRequest(pages, size)])
  {
    hide PageRequest, NextRequest;
    var all, more := pages + [page], trace + [NextRequest(pages, size)];
    forall i: nat | i < |more|
      ensures more[i] == PageRequest(all, i, size) && server(i, more[i]) == PageReply(all[i])
    {
      RequestStays(pages, page, i, size);
      if i < |pages| {
        assert more[i] == trace[i] && all[i] == pages[i];
      }
    }
  }

  /** The paging loop; `trace` lists the requests in the order they are sent. */
  method WalkPages(server: Server, size: nat) returns (r: Result<seq<Page>>, ghost trace: seq<Request>)
    requires size > 0
    ensures r == Walk(server, size, [])
    ensures |trace| <= MaxPages(size) && forall i | 0 <= i < |trace| :: trace[i].GetPage?
    ensures r.Ok? ==> Traced(server, size, r.value, trace)
  {
    TracedStart(server, size);
    hide Traced;
    var pages: seq<Page> := [];
    var cursor: Option<Cursor> := None;
    var known: Option<nat> := None;
    trace := [];
    while true
      invariant |trace| == |pages| <= MaxPages(size) && forall i | 0 <= i < |trace| :: trace[i].GetPage?
      invariant known == KnownAfter(pages) && cursor == CursorAfter(pages)
      invariant Traced(server, size, pages, trace)
      invariant Walk(server, size, pages) == Walk(server, size, [])
      decreases MaxPages(size) - |pages|
    {
      if |pages| >= MaxPages(size) {
        return Err(ProtocolError), trace;
      }
      var request := GetPage(known, cursor, size);
      var response := server(|pages|, request);
      trace := trace + [request];
      match response {
        case PageReply(page) =>
          if known == None {
            known := Some(page.revision);
          } else if Some(page.revision) != known {
            return Err(RevisionChangedTo(page.revision)), trace;
          }
          TracedSnoc(server, size, pages, trace[..|pages|], page);
          pages := pages + [page];
          if page.next == None {
            return Ok(pages), trace;
          }
          cursor := page.next;
        case RevisionChanged(r) => return Err(RevisionChangedTo(r)), trace;
        case Failed(code) => return Err(if code == Denied then PermissionDenied else ProtocolError), trace;
        case Lost => return Err(Unavailable), trace;
        case _ => return Err(ProtocolError), trace;
      }
    }
  }

  // ---- Validating the collected pages ----

  function Flatten(pages: seq<Page>): seq<File> {
    if pages == [] then [] else Flatten(pages[..|pages| - 1]) + pages[|pages| - 1].items
  }

  /** The first page from `i` on with a revision other than the first page's. */
  function Mismatch(pages: seq<Page>, i: nat): Option<nat>
    decreases |pages| - i
  {
    if i >= |pages| then None else if pages[i].revision != pages[0].revision then Some(i) else Mismatch(pages, i + 1)
  }

  function Validated(pages: seq<Page>): Result<(seq<File>, nat)> {
    if pages == [] then Err(IncompleteCatalogue)
    else if Mismatch(pages, 0).Some? then
      MismatchFinds(pages, 0);
      Err(RevisionChangedTo(pages[Mismatch(pages, 0).value].revision))
    else if pages[|pages| - 1].next.Some? then Err(IncompleteCatalogue)
    else Ok((Flatten(pages), pages[0].revision))
  }

  lemma {:induction false} MismatchFinds(pages: seq<Page>, i: nat)
    ensures match Mismatch(pages, i)
      case None => forall k | i <= k < |pages| :: pages[k].revision == pages[0].revision
      case Some(k) => i <= k < |pages| && pages[k].revision != pages[0].revision
                      && forall j | i <= j < k :: pages[j].revision == pages[0].revision
    decreases |pages| - i
  {
    if i < |pages| && pages[i].revision == pages[0].revision {
      MismatchFinds(pages, i + 1);
    }
  }

  ghost predicate OneRevision(pages: seq<Page>) {
    forall i | 0 <= i < |pages| :: pages[i].revision == pages[0].revision
  }

  /** Pages are accepted exactly if there are some, of one revision, and the last has no cursor. */
  lemma ValidatedIff(pages: seq<Page>)
    ensures Validated(pages).Ok? <==> pages != [] && OneRevision(pages) && pages[|pages| - 1].next == None
    ensures Validated(pages).Ok? ==> Validated(pages).value == (Flatten(pages), pages[0].revision)
    ensures Validated(pages) == Err(IncompleteCatalogue)
      <==> pages == [] || (OneRevision(pages) && pages[|pages| - 1].next.Some?)
    ensures forall k | 0 <= k < |pages| && pages[k].revision != pages[0].revision && OneRevision(pages[..k]) ::
      Validated(pages) == Err(RevisionChangedTo(pages[k].revision))
  {
    MismatchFinds(pages, 0);
  }

  method ValidatePages(pages: seq<Page>) returns (r: Result<(seq<File>, nat)>)
    ensures r == Validated(pages)
  {
    if |pages| == 0 {
      return Err(IncompleteCatalogue);
    }
    var revision := pages[0].revision;
    for i := 0 to |pages|
      invariant Mismatch(pages, 0) == Mismatch(pages, i)
      invariant i == |pages| && pages[|pages| - 1].items != [] ==> pages[|pages| - 1].next == None
    {
      if pages[i].revision != revision {
        return Err(RevisionChangedTo(pages[i].revision));
      }
      if pages[i].items != [] && i == |pages| - 1 && pages[i].next.Some? {
        return Err(IncompleteCatalogue);
      }
    }
    if pages[|pages| - 1].next.Some? {
      return Err(IncompleteCatalogue);
    }
    var items: seq<File> := [];
    for i := 0 to |pages|
      invariant items == Flatten(pages[..i])
    {
      assert pages[..i + 1][..i] == pages[..i];
      items := items + pages[i].items;
    }
    assert pages[..|pages|] == pages;
    r := Ok((items, revision));
  }

  // ---- The signed catalogue ----

  function Hashes(files: seq<File>): set<string> { set f | f in files :: f.hash }

  /** The signed response, with the second unconditional request when the first says "not modified". */
  function FetchSigned(server: Server, pages: seq<Page>): Result<Catalogue>
    requires pages != []
  {
    match server(|pages|, GetSigned(Some(pages[0].revision)))
    case SignedReply(c) => CrossCheck(pages, c)
    case NotModified(_) =>
      (match server(|pages| + 1, GetSigned(None))
       case SignedReply(c) => CrossCheck(pages, c)
       case Lost => Err(Unavailable)
       case _ => Err(ProtocolError))
    case RevisionChanged(r) => Err(RevisionChangedTo(r))
    case Failed(code) => Err(if code == Denied then PermissionDenied else ProtocolError)
    case Lost => Err(Unavailable)
    case _ => Err(ProtocolError)
  }

  function CrossCheck(pages: seq<Page>, c: Catalogue): Result<Catalogue> {
    if Hashes(Flatten(pages)) == Hashes(c.files) then Ok(c) else Err(SignatureInvalid)
  }

  function ValidateComplete(checks: Checks, c: Catalogue, peer: Peer): Result<Catalogue> {
    if !checks.genuine(c) then Err(SignatureInvalid)
    else if !checks.wellFormed(c) then Err(ProtocolError)
    else if c.owner != peer then Err(SignatureInvalid)
    else Ok(c)
  }

  function Fetched(server: Server, checks: Checks, peer: Peer, requested: nat): Result<Catalogue> {
    match Walk(server, PageSize(requested), [])
    case Err(e) => Err(e)
    case Ok(pages) =>
      match Validated(pages)
      case Err(e) => Err(e)
      case Ok(_) =>
        match FetchSigned(server, pages)
        case Err(e) => Err(e)
        case Ok(c) => ValidateComplete(checks, c, peer)
  }

  /** The server sent `c` for these pages, at once or after "not modified". */
  predicate SentSigned(server: Server, pages: seq<Page>, c: Catalogue)
    requires pages != []
  {
    var first := server(|pages|, GetSigned(Some(pages[0].revision)));
    || first == SignedReply(c)
    || (first.NotModified? && server(|pages| + 1, GetSigned(None)) == SignedReply(c))
  }

  /** What a successful fetch is evidence of. */
  ghost predicate Evidence(server: Server, checks: Checks, peer: Peer, size: nat, pages: seq<Page>, c: Catalogue)
    requires size > 0
  {
    && Chain(server, size, pages) && SentSigned(server, pages, c)
    && (set p, f | p in pages && f in p.items :: f.hash) == (set f | f in c.files :: f.hash)
    && checks.genuine(c) && checks.wellFormed(c) && c.owner == peer
  }

  lemma {:induction false} FlattenHas(pages: seq<Page>)
    ensures forall f :: f in Flatten(pages) <==> exists p :: p in pages && f in p.items
  {
    if pages != [] {
      var n := |pages| - 1;
      FlattenHas(pages[..n]);
      assert pages == pages[..n] + [pages[n]];
      assert forall f :: f in Flatten(pages) <==> f in Flatten(pages[..n]) || f in pages[n].items;
    }
  }

  lemma HashesFlatten(pages: seq<Page>)
    ensures Hashes(Flatten(pages)) == set p, f | p in pages && f in p.items :: f.hash
  {
    FlattenHas(pages);
  }

  /** What the paging loop hands over always passes `validate_pages`. */
  lemma ChainValid(server: Server, size: nat, pages: seq<Page>)
    requires size > 0 && Chain(server, size, pages)
    ensures pages != [] && Validated(pages) == Ok((Flatten(pages), pages[0].revision))
  {
    assert OneRevision(pages) by {
      forall i | 0 <= i < |pages|
        ensures pages[i].revision == pages[0].revision
      {
        assert Answered(server, size, pages, i);
      }
    }
    assert Answered(server, size, pages, |pages| - 1);
    hide Validated;
    ValidatedIff(pages);
  }

  // ---- How a fetch fails ----

  /** What the server's answers about the signed catalogue mean, once the pages are complete. */
  ghost predicate SignedEnds(server: Server, checks: Checks, peer: Peer, pages: seq<Page>, e: FetchError)
    requires pages != []
  {
    var first := server(|pages|, GetSigned(Some(pages[0].revision)));
    var second := server(|pages| + 1, GetSigned(None));
    match e
    case RevisionChangedTo(r) => first == RevisionChanged(r)
    case PermissionDenied => first == Failed(Denied)
    case Unavailable => first == Lost || (first.NotModified? && second == Lost)
    case IncompleteCatalogue => false
    case ProtocolError =>
      || first == Failed(OtherCode) || first.PageReply? || first.Unexpected?
      || (first.NotModified? && !second.SignedReply? && second != Lost)
      || exists c :: SentSigned(server, pages, c) && SameHashes(pages, c) && checks.genuine(c) && !checks.wellFormed(c)
    case SignatureInvalid =>
      exists c :: SentSigned(server, pages, c)
        && (!SameHashes(pages, c) || !checks.genuine(c) || (checks.wellFormed(c) && c.owner != peer))
  }

  predicate SameHashes(pages: seq<Page>, c: Catalogue) {
    (set p, f | p in pages && f in p.items :: f.hash) == (set f | f in c.files :: f.hash)
  }

  /** The signed phase, for pages that are complete. */
  lemma SignedErrIff(server: Server, checks: Checks, peer: Peer, pages: seq<Page>, e: FetchError)
    requires pages != []
    ensures var signed := FetchSigned(server, pages);
      (signed == Err(e) || (signed.Ok? && ValidateComplete(checks, signed.value, peer) == Err(e)))
      <==> SignedEnds(server, checks, peer, pages, e)
  {
    HashesFlatten(pages);
    hide Flatten;
    var first, second := server(|pages|, GetSigned(Some(pages[0].revision))), server(|pages| + 1, GetSigned(None));
    if first.SignedReply? {
      assert forall c :: SentSigned(server, pages, c) <==> c == first.catalogue;
      assert SentSigned(server, pages, first.catalogue);
    } else if first.NotModified? && second.SignedReply? {
      assert forall c :: SentSigned(server, pages, c) <==> c == second.catalogue;
      assert SentSigned(server, pages, second.catalogue);
    } else {
      assert forall c :: !SentSigned(server, pages, c);
    }
  }

  /** Against any server the fetch fails with `e` exactly if the walk does, or its complete pages meet such an end. */
  lemma FetchErrIff(server: Server, checks: Checks, peer: Peer, requested: nat, e: FetchError)
    ensures var size := PageSize(requested);
      Fetched(server, checks, peer, requested) == Err(e) <==>
      || (exists pages :: Stops(server, size, pages, e))
      || (exists pages :: Chain(server, size, pages) && SignedEnds(server, checks, peer, pages, e))
  {
    var size := PageSize(requested);
    WalkErrIff(server, size, e);
    var walk := Walk(server, size, []);
    hide Walk, Stops, SignedEnds, FetchSigned, ValidateComplete, Chain;
    forall pages
      ensures Chain(server, size, pages) <==> walk == Ok(pages)
    {
      WalkOkIff(server, size, pages);
    }
    if walk.Ok? {
      ChainValid(server, size, walk.value);
      SignedErrIff(server, checks, peer, walk.value, e);
    }
  }

  /** Against any server: the fetch returns `c` exactly if the server gave complete evidence for it. */
  lemma FetchOkIff(server: Server, checks: Checks, peer: Peer, requested: nat, c: Catalogue)
    ensures Fetched(server, checks, peer, requested) == Ok(c)
      <==> exists pages :: Evidence(server, checks, peer, PageSize(requested), pages, c)
  {
    var size := PageSize(requested);
    var walk := Walk(server, size, []);
    if walk.Ok? {
      WalkOkIff(server, size, walk.value);
      ChainValid(server, size, walk.value);
      HashesFlatten(walk.value);
      if Fetched(server, checks, peer, requested) == Ok(c) {
        assert Evidence(server, checks, peer, size, walk.value, c);
      }
    }
    if pages :| Evidence(server, checks, peer, size, pages, c) {
      WalkOkIff(server, size, pages);
      ChainValid(server, size, pages);
      HashesFlatten(pages);
    }
  }

  /** The whole fetch: at most `MaxPages` page requests, then at most two requests for the signed catalogue. */
  method FetchPaginated(server: Server, checks: Checks, peer: Peer, requested: nat)
    returns (r: Result<Catalogue>, ghost trace: seq<Request>)
    ensures r == Fetched(server, checks, peer, requested)
    ensures |trace| <= MaxPages(PageSize(requested)) + 2
    ensures forall i | MaxPages(PageSize(requested)) <= i < |trace| :: trace[i].GetSigned?
  {
    hide Walk, Validated, Flatten, MaxPages;
    var size := PageSize(requested);
    var walk;
    walk, trace := WalkPages(server, size);
    if walk.Err? {
      return Err(walk.error), trace;
    }
    var pages := walk.value;
    var valid := ValidatePages(pages);
    if valid.Err? {
      return Err(valid.error), trace;
    }
    ValidatedIff(pages);
    var (items, revision) := valid.value;
    var response := server(|pages|, GetSigned(Some(revision)));
    trace := trace + [GetSigned(Some(revision))];
    var catalogue: Catalogue;
    match response {
      case SignedReply(c) => catalogue := c;
      case NotModified(_) =>
        var forced := server(|pages| + 1, GetSigned(None));
        trace := trace + [GetSigned(None)];
        match forced {
          case SignedReply(c) => catalogue := c;
          case Lost => return Err(Unavailable), trace;
          case _ => return Err(ProtocolError), trace;
        }
      case RevisionChanged(n) => return Err(RevisionChangedTo(n)), trace;
      case Failed(code) => return Err(if code == Denied then PermissionDenied else ProtocolError), trace;
      case Lost => return Err(Unavailable), trace;
      case _ => return Err(ProtocolError), trace;
    }
    if Hashes(items) != Hashes(catalogue.files) {
      return Err(SignatureInvalid), trace;
    }
    r := ValidateComplete(checks, catalogue, peer);
  }

  // ---- An honest server ----

  /** `cached`: the handler remembers having sent this requester the present view at this revision. */
  datatype Host = Host(catalogue: Catalogue, requester: Peer, cached: bool)

  function Position(files: seq<File>, updatedAt: nat, id: string): Option<nat> {
    if files == [] then None
    else if files[0].updatedAt == updatedAt && files[0].id == id then Some(0)
    else match Position(files[1..], updatedAt, id)
      case None => None
      case Some(k) => Some(k + 1)
  }

  function CursorAt(h: Host, f: File): Cursor {
    Cursor(h.catalogue.owner, h.requester, h.catalogue.revision, f.updatedAt, f.id)
  }

  function PageFrom(h: Host, start: nat, size: nat): Page
    requires start <= |h.catalogue.files|
  {
    var files := h.catalogue.files;
    var end := Min(start + size, |files|);
    Page(h.catalogue.revision, files[start..end],
         if end < |files| && start < end then Some(CursorAt(h, files[end - 1])) else None)
  }

  lemma {:induction false} PositionBounded(files: seq<File>, updatedAt: nat, id: string)
    ensures Position(files, updatedAt, id).Some? ==> Position(files, updatedAt, id).value < |files|
  {
    if files != [] { PositionBounded(files[1..], updatedAt, id); }
  }

  /** An error code instead of an answer, or no response at all. */
  datatype Refusal = Refused(code: ErrorCode) | Dropped

  /** What stands before the handler: the limiters, the size limits and the connection may each refuse request `i`. */
  type Gate = nat -> Option<Refusal>

  function RefusalReply(r: Refusal): Reply { if r.Dropped? then Lost else Failed(r.code) }

  /** The page and catalogue handler behind its gate. */
  function Serve(h: Host, gate: Gate, i: nat, request: Request): Reply {
    if gate(i).Some? then RefusalReply(gate(i).value) else
    match request
    case GetPage(_, cursor, size) =>
      var pageSize := Min(size, MAX_CATALOGUE_PAGE_SIZE);
      if cursor == None then PageReply(PageFrom(h, 0, pageSize))
      else if cursor.value.owner != h.catalogue.owner then Failed(OtherCode)
      else if cursor.value.requester != h.requester then Failed(Denied)
      else if cursor.value.revision != h.catalogue.revision then RevisionChanged(h.catalogue.revision)
      else
        PositionBounded(h.catalogue.files, cursor.value.updatedAt, cursor.value.id);
        (match Position(h.catalogue.files, cursor.value.updatedAt, cursor.value.id)
         case None => RevisionChanged(h.catalogue.revision)
         case Some(k) => PageReply(PageFrom(h, k + 1, pageSize)))
    case GetSigned(known) =>
      if known == Some(h.catalogue.revision) && h.cached then NotModified(h.catalogue.revision)
      else SignedReply(h.catalogue)
  }

  function HostServer(h: Host, gate: Gate): Server {
    (i: nat, request: Request) => Serve(h, gate, i, request)
  }

  /** Cursors name a file by update time and id. */
  ghost predicate DistinctKeys(files: seq<File>) {
    forall i, j | 0 <= i < j < |files| :: files[i].updatedAt != files[j].updatedAt || files[i].id != files[j].id
  }

  ghost predicate Honest(h: Host, checks: Checks) {
    && |h.catalogue.files| <= MAX_CATALOGUE_FILES && DistinctKeys(h.catalogue.files)
    && checks.genuine(h.catalogue) && checks.wellFormed(h.catalogue)
  }

  lemma {:induction false} PositionFinds(files: seq<File>, k: nat)
    requires DistinctKeys(files) && k < |files|
    ensures Position(files, files[k].updatedAt, files[k].id) == Some(k)
  {
    if k > 0 {
      PositionFinds(files[1..], k - 1);
    }
  }

  /** Pages it takes to send `n` files. */
  function PagesFor(n: nat, size: nat): nat
    requires size > 0
  {
    if n <= size then 1 else 1 + PagesFor(n - size, size)
  }

  lemma {:induction false} PagesForIs(n: nat, size: nat)
    requires size > 0
    ensures PagesFor(n, size) == if n == 0 then 1 else (n - 1) / size + 1
  {
    if n > size {
      PagesForIs(n - size, size);
      assert (n - 1) / size == (n - 1 - size) / size + 1 by { DivStep(n - 1, size); }
    } else if n > 0 {
      assert (n - 1) / size == 0;
    }
  }

  lemma DivStep(n: nat, size: nat)
    requires 0 < size <= n
    ensures n / size == (n - size) / size + 1
  {
    var q := (n - size) / size;
    DivIs(n, size, q + 1);
  }

  /** The client has walked the first `sent` files and holds the cursor of the last of them. */
  ghost predicate Midway(h: Host, size: nat, pages: seq<Page>, sent: nat) {
    && sent <= |h.catalogue.files| && Flatten(pages) == h.catalogue.files[..sent]
    && (forall i | 0 <= i < |pages| :: pages[i].revision == h.catalogue.revision)
    && (if pages == [] then sent == 0
        else 0 < sent < |h.catalogue.files| && CursorAfter(pages) == Some(CursorAt(h, h.catalogue.files[sent - 1])))
  }

  lemma NextPage(h: Host, gate: Gate, size: nat, pages: seq<Page>, sent: nat)
    requires DistinctKeys(h.catalogue.files) && 0 < size <= MAX_CATALOGUE_PAGE_SIZE
    requires Midway(h, size, pages, sent) && gate(|pages|) == None
    ensures Serve(h, gate, |pages|, NextRequest(pages, size)) == PageReply(PageFrom(h, sent, size))
  {
    if pages != [] {
      PositionFinds(h.catalogue.files, sent - 1);
    }
  }

  lemma AfterPage(h: Host, size: nat, pages: seq<Page>, sent: nat)
    requires Midway(h, size, pages, sent) && size > 0
    ensures var page, n := PageFrom(h, sent, size), |h.catalogue.files|;
      && page.revision == h.catalogue.revision
      && Flatten(pages + [page]) == h.catalogue.files[..Min(sent + size, n)]
      && (page.next.Some? <==> sent + size < n)
      && (page.next.Some? ==> Midway(h, size, pages + [page], sent + size))
  {
  }

  /** The first request from `start` on, and before `end`, that is refused. */
  function FirstRefused(gate: Gate, start: nat, end: nat): (k: Option<nat>)
    ensures k.Some? ==> start <= k.value < end && gate(k.value).Some?
    ensures forall i: nat | start <= i < (if k.Some? then k.value else end) :: gate(i) == None
    decreases end - start
  {
    if start >= end then None else if gate(start).Some? then Some(start) else FirstRefused(gate, start + 1, end)
  }

  function RefusalError(r: Refusal): FetchError {
    if r.Dropped? then Unavailable else if r.code == Denied then PermissionDenied else ProtocolError
  }

  /** The walk ends with the whole catalogue if no page is refused, otherwise with the error of the first refusal. */
  lemma {:induction false} HostWalk(h: Host, gate: Gate, size: nat, pages: seq<Page>, sent: nat)
    requires DistinctKeys(h.catalogue.files) && |h.catalogue.files| <= MAX_CATALOGUE_FILES
    requires 0 < size <= MAX_CATALOGUE_PAGE_SIZE
    requires Midway(h, size, pages, sent) && sent == |pages| * size
    ensures var walk := Walk(HostServer(h, gate), size, pages);
      var all := |pages| + PagesFor(|h.catalogue.files| - sent, size);
      var refused := FirstRefused(gate, |pages|, all);
      && (refused.Some? ==> walk == Err(RefusalError(gate(refused.value).value)))
      && (refused == None ==>
            walk.Ok? && |walk.value| == all && Flatten(walk.value) == h.catalogue.files
            && forall i | 0 <= i < all :: walk.value[i].revision == h.catalogue.revision)
    decreases |h.catalogue.files| - sent
  {
    hide Serve, PageFrom, Midway, Flatten, DistinctKeys, MaxPages, NextRequest;
    MidwayRevision(h, size, pages, sent);
    PageCountBound(|pages|, size);
    assert HostServer(h, gate)(|pages|, NextRequest(pages, size)) == Serve(h, gate, |pages|, NextRequest(pages, size));
    if gate(|pages|).Some? {
      RefusedReply(h, gate, |pages|, NextRequest(pages, size));
    } else {
      NextPage(h, gate, size, pages, sent);
      AfterPage(h, size, pages, sent);
      var page := PageFrom(h, sent, size);
      if page.next.Some? {
        assert |pages + [page]| * size == sent + size;
        HostWalk(h, gate, size, pages + [page], sent + size);
      }
    }
  }

  lemma RefusedReply(h: Host, gate: Gate, i: nat, request: Request)
    requires gate(i).Some?
    ensures Serve(h, gate, i, request) == RefusalReply(gate(i).value)
  {
  }

  lemma MidwayRevision(h: Host, size: nat, pages: seq<Page>, sent: nat)
    requires Midway(h, size, pages, sent)
    ensures sent <= |h.catalogue.files| && forall i | 0 <= i < |pages| :: pages[i].revision == h.catalogue.revision
  {
  }

  lemma PageCountBound(n: nat, size: nat)
    requires size > 0 && n * size <= MAX_CATALOGUE_FILES
    ensures n < MaxPages(size)
  {
  }

  /** The number of requests a fetch from this server takes. */
  function RequestsFor(h: Host, size: nat): nat
    requires size > 0
  {
    PagesFor(|h.catalogue.files|, size) + if h.cached then 2 else 1
  }

  /** A refusal of the forced second request for the signed catalogue is a protocol error whatever its code. */
  function SignedError(r: Refusal): FetchError { if r.Dropped? then Unavailable else ProtocolError }

  lemma HostSigned(h: Host, gate: Gate, pages: seq<Page>)
    requires pages != [] && pages[0].revision == h.catalogue.revision && Flatten(pages) == h.catalogue.files
    ensures var n := |pages|;
      FetchSigned(HostServer(h, gate), pages) ==
      if gate(n).Some? then Err(RefusalError(gate(n).value))
      else if h.cached && gate(n + 1).Some? then Err(SignedError(gate(n + 1).value))
      else Ok(h.catalogue)
  {
  }

  lemma HostStarts(h: Host, size: nat)
    ensures Midway(h, size, [], 0)
  {
    assert h.catalogue.files[..0] == [];
  }

  lemma {:induction false} FirstRefusedSplit(gate: Gate, start: nat, mid: nat, end: nat)
    requires start <= mid <= end
    ensures FirstRefused(gate, start, end) ==
      if FirstRefused(gate, start, mid).Some? then FirstRefused(gate, start, mid) else FirstRefused(gate, mid, end)
    decreases mid - start
  {
    if start < mid {
      FirstRefusedSplit(gate, start + 1, mid, end);
    }
  }

  /**
   Against an honest server with at most 10,000 files the page bound never trips and no check fails: the fetch
   returns the server's catalogue exactly if no request it takes is refused, and otherwise the error of the
   first refusal.
   */
  lemma HonestFetchIff(h: Host, checks: Checks, gate: Gate, requested: nat)
    requires Honest(h, checks)
    ensures var fetched := Fetched(HostServer(h, gate), checks, h.catalogue.owner, requested);
      var all := RequestsFor(h, PageSize(requested));
      var refused := FirstRefused(gate, 0, all);
      fetched ==
      if refused == None then Ok(h.catalogue)
      else if h.cached && refused == Some(all - 1) then Err(SignedError(gate(all - 1).value))
      else Err(RefusalError(gate(refused.value).value))
  {
    var size := PageSize(requested);
    HostStarts(h, size);
    hide Walk, Validated, Chain, DistinctKeys, PagesFor, Midway, Flatten, FetchSigned, HostServer;
    HostWalk(h, gate, size, [], 0);
    var n := PagesFor(|h.catalogue.files|, size);
    FirstRefusedSplit(gate, 0, n, RequestsFor(h, size));
    var walk := Walk(HostServer(h, gate), size, []);
    if walk.Ok? {
      WalkOkIff(HostServer(h, gate), size, walk.value);
      ChainValid(HostServer(h, gate), size, walk.value);
      HostSigned(h, gate, walk.value);
    }
  }

  /** A cursor serves only the requester, the owner and the revision it was made for. */
  lemma ForeignCursor(h: Host, gate: Gate, i: nat, known: Option<nat>, cursor: Cursor, size: nat)
    requires gate(i) == None
    requires Serve(h, gate, i, GetPage(known, Some(cursor), size)).PageReply?
    ensures cursor.owner == h.catalogue.owner && cursor.requester == h.requester
    ensures cursor.revision == h.catalogue.revision
    ensures exists f :: f in h.catalogue.files && f.updatedAt == cursor.updatedAt && f.id == cursor.id
  {
    PositionIs(h.catalogue.files, cursor.updatedAt, cursor.id);
  }

  lemma {:induction false} PositionIs(files: seq<File>, updatedAt: nat, id: string)
    ensures Position(files, updatedAt, id).Some? ==> exists f :: f in files && f.updatedAt == updatedAt && f.id == id
  {
    if files != [] {
      PositionIs(files[1..], updatedAt, id);
      if files[0].updatedAt == updatedAt && files[0].id == id {
        assert files[0] in files;
      } else if f :| f in files[1..] && f.updatedAt == updatedAt && f.id == id {
        assert f in files;
      }
    }
  }

  // ---- A host that republishes meanwhile ----

  /** The host answers from `h` before request `k` and from `later` from then on, refusing nothing. */
  function Republished(h: Host, later: Host, k: nat): Server {
    (i: nat, request: Request) => Serve(if i < k then h else later, (n: nat) => None, i, request)
  }

  /** The same owner and requester, another revision. */
  predicate Supersedes(h: Host, later: Host) {
    later.catalogue.owner == h.catalogue.owner && later.requester == h.requester
    && later.catalogue.revision != h.catalogue.revision
  }

  lemma StaleCursor(h: Host, later: Host, size: nat, pages: seq<Page>, sent: nat)
    requires Supersedes(h, later) && Midway(h, size, pages, sent) && pages != []
    ensures Serve(later, (n: nat) => None, |pages|, NextRequest(pages, size))
      == RevisionChanged(later.catalogue.revision)
  {
  }

  lemma {:induction false} RepublishedWalk(h: Host, later: Host, k: nat, size: nat, pages: seq<Page>, sent: nat)
    requires Supersedes(h, later) && DistinctKeys(h.catalogue.files) && |h.catalogue.files| <= MAX_CATALOGUE_FILES
    requires 0 < size <= MAX_CATALOGUE_PAGE_SIZE && Midway(h, size, pages, sent) && sent == |pages| * size
    requires 0 < k && |pages| <= k < |pages| + PagesFor(|h.catalogue.files| - sent, size)
    ensures Walk(Republished(h, later, k), size, pages) == Err(RevisionChangedTo(later.catalogue.revision))
    decreases |h.catalogue.files| - sent
  {
    hide Serve, PageFrom, Midway, Flatten, DistinctKeys, MaxPages, NextRequest;
    MidwayRevision(h, size, pages, sent);
    PageCountBound(|pages|, size);
    if |pages| == k {
      StaleCursor(h, later, size, pages, sent);
    } else {
      NextPage(h, (n: nat) => None, size, pages, sent);
      AfterPage(h, size, pages, sent);
      var page := PageFrom(h, sent, size);
      assert |pages + [page]| * size == sent + size;
      RepublishedWalk(h, later, k, size, pages + [page], sent + size);
    }
  }

  /** If the catalogue changes between two page requests, the fetch ends with the new revision. */
  lemma RepublishedFetch(h: Host, later: Host, checks: Checks, k: nat, requested: nat)
    requires Supersedes(h, later) && DistinctKeys(h.catalogue.files) && |h.catalogue.files| <= MAX_CATALOGUE_FILES
    requires 0 < k < PagesFor(|h.catalogue.files|, PageSize(requested))
    ensures Fetched(Republished(h, later, k), checks, h.catalogue.owner, requested)
      == Err(RevisionChangedTo(later.catalogue.revision))
  {
    HostStarts(h, PageSize(requested));
    hide Walk, Midway, DistinctKeys, PagesFor;
    RepublishedWalk(h, later, k, PageSize(requested), [], 0);
  }

  /** No honest fetch needs more requests than the client's own bound allows. */
  lemma EnoughBudget(h: Host, checks: Checks, requested: nat)
    requires Honest(h, checks)
    ensures RequestsFor(h, PageSize(requested)) <= MaxPages(PageSize(requested)) + 1
  {
    var n, size := |h.catalogue.files|, PageSize(requested);
    PagesForIs(n, size);
    if n > 0 {
      DivMonotone(n - 1, MAX_CATALOGUE_FILES, size);
    }
  }

}
