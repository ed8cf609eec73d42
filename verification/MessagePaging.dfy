/**
 The `messages.get` companion query (src/companion_protocol.rs) over the keyset query of the message store
 (src/store/history.rs): pages of one history snapshot, chained by a textual cursor.
 */
module MessagePaging {
  import opened Basics
  import opened Text

  /** A stored message; the table lists its rows in index order, by timestamp and then id. */
  datatype Row = Row(id: int, timestamp: int, topic: nat, deleted: bool, body: string)
  type Table = seq<Row>

  datatype View = View(timestamp: nat, topic: nat, body: string)
  datatype PageState = Unavailable | Loading | End
  datatype Page = Page(snapshot: int, state: PageState, items: seq<View>, next: Option<string>, end: bool)

  /** `Failure`: a malformed conversation id or a failed query; `Empty`: the fixed final page outside the scope. */
  datatype Response = Failure | Empty | Served(page: Page)

  const MAX_COMPANION_RECORDS: nat := 100
  const MAX_COMPANION_BYTES: nat := 256 * 1024
  const MAX_COMPANION_FRAME_BYTES: nat := 64 * 1024

  predicate Before(ts: int, id: int, r: Row) { ts < r.timestamp || (ts == r.timestamp && id < r.id) }

  ghost predicate Sorted(t: Table) {
    forall i, j | 0 <= i < j < |t| :: Before(t[i].timestamp, t[i].id, t[j])
  }

  ghost predicate InRange(t: Table) {
    forall r | r in t :: I64_MIN <= r.id <= I64_MAX && I64_MIN <= r.timestamp <= I64_MAX
  }

  // ---- The cursor ----

  function EncodeCursor(snapshot: int, ts: int, id: int): string {
    PrintInt(snapshot) + ":" + PrintInt(ts) + ":" + PrintInt(id)
  }

  /** Parts after the third are ignored. */
  function DecodeCursor(s: string): Option<(int, int, int)> {
    var parts := Split(s, ':');
    if |parts| < 3 then None
    else match (ParseInt(parts[0]), ParseInt(parts[1]), ParseInt(parts[2]))
      case (Some(a), Some(b), Some(c)) => Some((a, b, c))
      case _ => None
  }

  predicate Fits64(n: int) { I64_MIN <= n <= I64_MAX }

  lemma CursorRoundTrip(a: int, b: int, c: int)
    requires Fits64(a) && Fits64(b) && Fits64(c)
    ensures DecodeCursor(EncodeCursor(a, b, c)) == Some((a, b, c))
  {
    IntRoundTrip(a);
    IntRoundTrip(b);
    IntRoundTrip(c);
    var parts := [PrintInt(a), PrintInt(b), PrintInt(c)];
    assert Join(parts, ':') == EncodeCursor(a, b, c) by {
      assert parts[1..] == [PrintInt(b), PrintInt(c)] && parts[1..][1..] == [PrintInt(c)];
      assert Join(parts[1..], ':') == PrintInt(b) + [':'] + PrintInt(c);
      assert Join(parts, ':') == PrintInt(a) + [':'] + (PrintInt(b) + [':'] + PrintInt(c));
    }
    hide PrintInt, ParseInt;
    SplitJoin(parts, ':');
  }

  // ---- The store's queries ----

  predicate Selected(r: Row, topic: nat, snapshot: int) { r.topic == topic && !r.deleted && r.id <= snapshot }

  /** The rows of one history snapshot, in order. */
  function Visible(t: Table, topic: nat, snapshot: int): seq<Row> {
    if t == [] then []
    else
      var rest := Visible(t[..|t| - 1], topic, snapshot);
      if Selected(t[|t| - 1], topic, snapshot) then rest + [t[|t| - 1]] else rest
  }

  function After(rows: seq<Row>, after: Option<(int, int)>): seq<Row> {
    if after == None then rows
    else if rows == [] then []
    else
      var rest := After(rows[..|rows| - 1], after);
      var last := rows[|rows| - 1];
      if Before(after.value.0, after.value.1, last) then rest + [last] else rest
  }

  /** `get_messages_keyset`, with the limit clamped to 1..200. */
  function Keyset(t: Table, topic: nat, after: Option<(int, int)>, snapshot: int, limit: nat): seq<Row> {
    var rows := After(Visible(t, topic, snapshot), after);
    rows[..Min(|rows|, if limit < 1 then 1 else Min(limit, 200))]
  }

  /** `message_history_snapshot`: the largest live id of the topic, 0 if there is none. */
  function Watermark(t: Table, topic: nat): int {
    if t == [] then 0
    else
      var rest := Watermark(t[..|t| - 1], topic);
      var last := t[|t| - 1];
      if last.topic == topic && !last.deleted && (last.id > rest || !HasTopic(t[..|t| - 1], topic))
      then last.id else rest
  }

  predicate HasTopic(t: Table, topic: nat) { exists i | 0 <= i < |t| :: t[i].topic == topic && !t[i].deleted }

  lemma {:induction false} WatermarkCovers(t: Table, topic: nat)
    ensures forall r | r in t && r.topic == topic && !r.deleted :: r.id <= Watermark(t, topic)
    ensures InRange(t) ==> Fits64(Watermark(t, topic))
  {
    if t != [] {
      var n := |t| - 1;
      WatermarkCovers(t[..n], topic);
      assert t == t[..n] + [t[n]];
      assert InRange(t) ==> InRange(t[..n]) && t[n] in t;
    }
  }

  /** A snapshot taken now shows the whole live history of the topic. */
  lemma {:induction false} SnapshotIsWhole(t: Table, topic: nat, r: Row)
    ensures r in Visible(t, topic, Watermark(t, topic)) <==> r in t && r.topic == topic && !r.deleted
  {
    WatermarkCovers(t, topic);
    VisibleHas(t, topic, Watermark(t, topic), r);
  }

  lemma {:induction false} VisibleHas(t: Table, topic: nat, snapshot: int, r: Row)
    ensures r in Visible(t, topic, snapshot) <==> r in t && Selected(r, topic, snapshot)
  {
    if t != [] {
      VisibleHas(t[..|t| - 1], topic, snapshot, r);
      assert t == t[..|t| - 1] + [t[|t| - 1]];
    }
  }

  lemma {:induction false} VisibleSorted(t: Table, topic: nat, snapshot: int)
    requires Sorted(t)
    ensures Sorted(Visible(t, topic, snapshot)) && (InRange(t) ==> InRange(Visible(t, topic, snapshot)))
  {
    forall r | r in Visible(t, topic, snapshot)
      ensures r in t
    {
      VisibleHas(t, topic, snapshot, r);
    }
    if t != [] {
      var n := |t| - 1;
      VisibleSorted(t[..n], topic, snapshot);
      forall r | r in Visible(t[..n], topic, snapshot)
        ensures Before(r.timestamp, r.id, t[n])
      {
        VisibleHas(t[..n], topic, snapshot, r);
      }
    }
  }

  /** Rows stored after the snapshot was taken, wherever they sort, do not show in it. */
  lemma {:induction false} GrowthIsInvisible(a: Table, added: Row, b: Table, topic: nat, snapshot: int)
    requires added.id > snapshot || added.topic != topic
    ensures Visible(a + [added] + b, topic, snapshot) == Visible(a + b, topic, snapshot)
  {
    if b == [] {
      assert a + [added] + b == a + [added] && (a + [added])[..|a|] == a && a + b == a;
    } else {
      var n := |b| - 1;
      GrowthIsInvisible(a, added, b[..n], topic, snapshot);
      assert (a + [added] + b)[..|a| + 1 + n] == a + [added] + b[..n];
      assert (a + b)[..|a| + n] == a + b[..n];
    }
  }

  /** The keyset condition of row `c - 1` selects exactly the rows from `c` on. */
  lemma {:induction false} AfterIs(rows: seq<Row>, c: nat)
    requires Sorted(rows) && 0 < c <= |rows|
    ensures After(rows, Some((rows[c - 1].timestamp, rows[c - 1].id))) == rows[c..]
  {
    var n := |rows| - 1;
    var key := Some((rows[c - 1].timestamp, rows[c - 1].id));
    if c <= n {
      AfterIs(rows[..n], c);
      assert rows[c..] == rows[..n][c..] + [rows[n]];
    } else {
      NothingAfter(rows[..n], rows[n]);
    }
  }

  lemma {:induction false} NothingAfter(rows: seq<Row>, last: Row)
    requires forall r | r in rows :: Before(r.timestamp, r.id, last)
    ensures After(rows, Some((last.timestamp, last.id))) == []
  {
    if rows != [] {
      assert rows[|rows| - 1] in rows;
      NothingAfter(rows[..|rows| - 1], last);
    }
  }

  // ---- One call ----

  function ViewOf(r: Row): View { View(if r.timestamp < 0 then 0 else r.timestamp, r.topic, r.body) }

  function Views(rows: seq<Row>): (v: seq<View>)
    ensures |v| == |rows| && forall i | 0 <= i < |rows| :: v[i] == ViewOf(rows[i])
  {
    if rows == [] then [] else Views(rows[..|rows| - 1]) + [ViewOf(rows[|rows| - 1])]
  }

  /**
   The parameters of one call and the table it meets; `size` is the encoded length of a response with these
   items, and either of the two queries may fail.
   */
  datatype Call = Call(
    table: Table, limit: Option<nat>, maxBytes: Option<nat>, size: seq<View> -> nat, noSnapshot: bool, noRows: bool)
  {
    function Limit(): nat { Min(if limit == None then 50 else limit.value, MAX_COMPANION_RECORDS) }
    function Budget(): nat {
      var asked := if maxBytes == None then MAX_COMPANION_BYTES else maxBytes.value;
      Min(Min(asked, MAX_COMPANION_BYTES), MAX_COMPANION_FRAME_BYTES)
    }
  }

  /** How many leading rows are taken: up to the limit, stopping at the first response that is too long. */
  function Taken(call: Call, rows: seq<Row>, k: nat): (n: nat)
    requires k <= |rows|
    ensures k <= n <= |rows| && (k <= call.Limit() ==> n <= call.Limit())
    decreases |rows| - k
  {
    if k < |rows| && k < call.Limit() && call.size(Views(rows[..k + 1])) <= call.Budget()
    then Taken(call, rows, k + 1) else k
  }

  function StartOf(call: Call, topic: nat, after: Option<string>): (int, Option<(int, int)>) {
    if after.Some? && DecodeCursor(after.value).Some? then
      var (snapshot, ts, id) := DecodeCursor(after.value).value;
      (snapshot, Some((ts, id)))
    else (if call.noSnapshot then 0 else Watermark(call.table, topic), None)
  }

  /** The state of a page of `n` of `count` rows: cut short before its first row, more to come, or the end. */
  function StateOf(n: nat, count: nat, limit: nat): PageState {
    if n == 0 && n < count && n < limit then Unavailable else if n < count then Loading else End
  }

  function PageFrom(call: Call, snapshot: int, rows: seq<Row>): Page {
    var n := Taken(call, rows, 0);
    Page(snapshot, StateOf(n, |rows|, call.Limit()), Views(rows[..n]),
         if n == 0 then None else Some(EncodeCursor(snapshot, rows[n - 1].timestamp, rows[n - 1].id)),
         n == |rows|)
  }

  function Respond(call: Call, topic: nat, after: Option<string>): Page {
    var (snapshot, key) := StartOf(call, topic, after);
    PageFrom(call, snapshot, Keyset(call.table, topic, key, snapshot, call.Limit() + 1))
  }

  function Handle(call: Call, topic: Option<nat>, allowed: Option<set<nat>>, after: Option<string>): Response {
    if topic == None then Failure
    else if allowed.Some? && topic.value !in allowed.value then Empty
    else if call.noRows then Failure
    else Served(Respond(call, topic.value, after))
  }

  /** The loop of the handler: it grows the item list one probe at a time. */
  method TakeItems(call: Call, rows: seq<Row>) returns (items: seq<View>, truncated: bool)
    ensures items == Views(rows[..Taken(call, rows, 0)]) && |items| == Taken(call, rows, 0)
    ensures truncated <==> |items| < |rows| && |items| < call.Limit()
  {
    items, truncated := [], false;
    var k := 0;
    while k < |rows| && k < call.Limit()
      invariant 0 <= k <= |rows| && items == Views(rows[..k]) && !truncated
      invariant Taken(call, rows, k) == Taken(call, rows, 0)
    {
      ViewsSnoc(rows, k);
      var candidate := items + [ViewOf(rows[k])];
      if call.size(candidate) > call.Budget() {
        truncated := true;
        break;
      }
      items := candidate;
      k := k + 1;
    }
  }

  lemma ViewsSnoc(rows: seq<Row>, k: nat)
    requires k < |rows|
    ensures Views(rows[..k + 1]) == Views(rows[..k]) + [ViewOf(rows[k])]
  {
  }

  /** The handler; `topic` is the decoded conversation id, `allowed` the scope of the grant. */
  method GetMessages(call: Call, topic: Option<nat>, allowed: Option<set<nat>>, after: Option<string>)
    returns (r: Response)
    ensures r == Handle(call, topic, allowed, after)
  {
    hide Keyset, Taken, Views, EncodeCursor, StartOf, Watermark, DecodeCursor, Visible;
    if topic == None {
      return Failure;
    }
    var start := StartOf(call, topic.value, after);
    var snapshot := start.0;
    if allowed.Some? && topic.value !in allowed.value {
      return Empty;
    }
    if call.noRows {
      return Failure;
    }
    var rows := Keyset(call.table, topic.value, start.1, snapshot, call.Limit() + 1);
    var items, truncated := TakeItems(call, rows);
    var next := if items == [] then None
                else Some(EncodeCursor(snapshot, rows[|items| - 1].timestamp, rows[|items| - 1].id));
    var hasMore := truncated || |rows| > |items|;
    var state := if items == [] && truncated then Unavailable else if hasMore then Loading else End;
    r := Served(Page(snapshot, state, items, next, !hasMore));
  }

  /** The page when `rest` are all the rows still to come. */
  function PageOf(call: Call, snapshot: int, rest: seq<Row>): Page {
    PageFrom(call, snapshot, rest[..Min(|rest|, call.Limit() + 1)])
  }

  /**
   A page takes a prefix of what is to come; it is the end exactly if it takes everything; it is empty
   exactly if the limit is zero or the first row too long.
   */
  lemma PageFacts(call: Call, snapshot: int, rest: seq<Row>)
    ensures var page := PageOf(call, snapshot, rest);
      var n := |page.items|;
      && n <= |rest| && page.items == Views(rest[..n])
      && (page.end <==> n == |rest|)
      && page.next == (if n == 0 then None else Some(EncodeCursor(snapshot, rest[n - 1].timestamp, rest[n - 1].id)))
      && (rest != [] ==> (n > 0 <==> call.Limit() >= 1 && call.size(Views(rest[..1])) <= call.Budget()))
      && (page.state == End <==> page.end)
      && (page.state == Unavailable <==> rest != [] && call.Limit() >= 1 && call.size(Views(rest[..1])) > call.Budget())
  {
    hide EncodeCursor;
    var rows := rest[..Min(|rest|, call.Limit() + 1)];
    assert rest != [] ==> rows[..1] == rest[..1];
    assert rows[..Taken(call, rows, 0)] == rest[..Taken(call, rows, 0)];
  }

  // ---- What a call shows ----

  /** A row as the companion sees it: times before 1970 show as zero. */
  predicate ShowsRow(v: View, r: Row) {
    v.timestamp == (if r.timestamp < 0 then 0 else r.timestamp) && v.topic == r.topic && v.body == r.body
  }

  lemma {:induction false} AfterHas(rows: seq<Row>, after: Option<(int, int)>, r: Row)
    ensures r in After(rows, after) ==> r in rows
  {
    if after.Some? && rows != [] {
      AfterHas(rows[..|rows| - 1], after, r);
      assert rows == rows[..|rows| - 1] + [rows[|rows| - 1]];
    }
  }

  /** The item shows a live row of this conversation. */
  ghost predicate ShowsLive(t: Table, topic: nat, v: View) {
    exists r :: r in t && r.topic == topic && !r.deleted && ShowsRow(v, r)
  }

  /**
   A call fails for an id that does not decode or a failed query, shows nothing of a conversation outside the
   scope, and otherwise shows only live rows of the conversation asked for.
   */
  lemma HandleShows(call: Call, topic: Option<nat>, allowed: Option<set<nat>>, after: Option<string>)
    ensures var r := Handle(call, topic, allowed, after);
      var inScope := topic.Some? && (allowed == None || topic.value in allowed.value);
      && (r == Empty <==> topic.Some? && !inScope)
      && (r == Failure <==> topic == None || (inScope && call.noRows))
      && (r.Served? ==> forall v | v in r.page.items :: ShowsLive(call.table, topic.value, v))
  {
    var r := Handle(call, topic, allowed, after);
    if r.Served? {
      hide StartOf, EncodeCursor, Watermark;
      var (snapshot, key) := StartOf(call, topic.value, after);
      var rows := Keyset(call.table, topic.value, key, snapshot, call.Limit() + 1);
      forall v | v in r.page.items
        ensures ShowsLive(call.table, topic.value, v)
      {
        var i :| 0 <= i < |r.page.items| && r.page.items[i] == v;
        var row := rows[i];
        assert row in After(Visible(call.table, topic.value, snapshot), key);
        AfterHas(Visible(call.table, topic.value, snapshot), key, row);
        VisibleHas(call.table, topic.value, snapshot, row);
        assert ShowsRow(v, row);
      }
    }
  }

  lemma {:induction false} TakenIs(call: Call, rows: seq<Row>, k: nat)
    requires k <= |rows|
    ensures var n := Taken(call, rows, k);
      && (forall j | k < j <= n :: call.size(Views(rows[..j])) <= call.Budget())
      && (n == |rows| || n >= call.Limit() || call.size(Views(rows[..n + 1])) > call.Budget())
    decreases |rows| - k
  {
    hide Views, Call.Budget, Call.Limit;
    if Taken(call, rows, k) > k {
      TakenIs(call, rows, k + 1);
    }
  }

  /** A page is as long as it may be: every part of it fits, and one row more would not, or exceeds the limit. */
  lemma PageIsMaximal(call: Call, snapshot: int, rest: seq<Row>)
    ensures var n := |PageOf(call, snapshot, rest).items|;
      && n <= |rest| && n <= call.Limit()
      && (forall j | 0 < j <= n :: call.size(Views(rest[..j])) <= call.Budget())
      && (n == |rest| || n == call.Limit() || call.size(Views(rest[..n + 1])) > call.Budget())
  {
    hide EncodeCursor, Views, Taken, Call.Limit, Call.Budget;
    var rows := rest[..Min(|rest|, call.Limit() + 1)];
    TakenIs(call, rows, 0);
    var n := Taken(call, rows, 0);
    assert |PageOf(call, snapshot, rest).items| == n;
    forall j | 0 <= j <= |rows|
      ensures rows[..j] == rest[..j]
    {
    }
  }

  /** Its items show the rows to come, one by one. */
  lemma PageShows(call: Call, snapshot: int, rest: seq<Row>, i: nat)
    requires i < |PageOf(call, snapshot, rest).items|
    ensures i < |rest| && ShowsRow(PageOf(call, snapshot, rest).items[i], rest[i])
  {
    hide EncodeCursor, Taken, Call.Limit;
  }

  // ---- Following the cursor ----

  /** The response to call `k` of a client that always passes on the last `next`. */
  function Followed(calls: nat -> Call, topic: nat, k: nat): Page {
    Respond(calls(k), topic, if k == 0 then None else Followed(calls, topic, k - 1).next)
  }

  function Items(calls: nat -> Call, topic: nat, k: nat): seq<View> {
    if k == 0 then [] else Items(calls, topic, k - 1) + Followed(calls, topic, k - 1).items
  }

  /** The rows of the snapshot the first call takes. */
  function History(calls: nat -> Call, topic: nat): seq<Row> {
    Visible(calls(0).table, topic, Watermark(calls(0).table, topic))
  }

  /** Every call finds the rows of that snapshot unchanged, whatever was stored since. */
  ghost predicate Stable(calls: nat -> Call, topic: nat) {
    && Sorted(calls(0).table) && InRange(calls(0).table) && !calls(0).noSnapshot
    && forall k: nat :: Visible(calls(k).table, topic, Watermark(calls(0).table, topic)) == History(calls, topic)
  }

  /** The rows stored by the time the largest id was `bound`. */
  function Older(t: Table, bound: int): Table {
    if t == [] then []
    else if t[|t| - 1].id <= bound then Older(t[..|t| - 1], bound) + [t[|t| - 1]]
    else Older(t[..|t| - 1], bound)
  }

  lemma {:induction false} VisibleOlder(t: Table, topic: nat, snapshot: int, bound: int)
    requires snapshot <= bound
    ensures Visible(Older(t, bound), topic, snapshot) == Visible(t, topic, snapshot)
  {
    if t != [] {
      var n := |t| - 1;
      VisibleOlder(t[..n], topic, snapshot, bound);
      if t[n].id <= bound {
        var older := Older(t[..n], bound);
        assert (older + [t[n]])[..|older|] == older;
      }
    }
  }

  /**
   An append-only store is stable: if every later table is the first one with rows of larger ids added, in
   whatever places they sort and in whatever conversations, every call sees the first call's snapshot.
   */
  lemma AppendOnlyIsStable(calls: nat -> Call, topic: nat, bound: int)
    requires Sorted(calls(0).table) && InRange(calls(0).table) && !calls(0).noSnapshot
    requires Watermark(calls(0).table, topic) <= bound
    requires forall k: nat :: Older(calls(k).table, bound) == calls(0).table
    ensures Stable(calls, topic)
  {
    var snapshot := Watermark(calls(0).table, topic);
    forall k: nat
      ensures Visible(calls(k).table, topic, snapshot) == History(calls, topic)
    {
      VisibleOlder(calls(k).table, topic, snapshot, bound);
      assert Older(calls(k).table, bound) == calls(0).table;
    }
  }

  function CursorOf(calls: nat -> Call, topic: nat, r: Row): string {
    EncodeCursor(Watermark(calls(0).table, topic), r.timestamp, r.id)
  }

  /** The client holds the first rows, and the cursor of the last of them. */
  ghost predicate Reached(calls: nat -> Call, topic: nat, k: nat) {
    var rows, c := History(calls, topic), |Items(calls, topic, k)|;
    && c <= |rows| && Items(calls, topic, k) == Views(rows[..c])
    && (k > 0 ==> c > 0 && Followed(calls, topic, k - 1).next == Some(CursorOf(calls, topic, rows[c - 1])))
  }

  lemma RespondFrom(call: Call, topic: nat, snapshot: int, rows: seq<Row>, c: nat)
    requires Sorted(rows) && InRange(rows) && Fits64(snapshot)
    requires Visible(call.table, topic, snapshot) == rows && 0 < c <= |rows|
    ensures Respond(call, topic, Some(EncodeCursor(snapshot, rows[c - 1].timestamp, rows[c - 1].id)))
      == PageOf(call, snapshot, rows[c..])
  {
    assert rows[c - 1] in rows;
    CursorRoundTrip(snapshot, rows[c - 1].timestamp, rows[c - 1].id);
    AfterIs(rows, c);
    hide Visible, EncodeCursor, DecodeCursor, Sorted, PageFrom, After;
  }

  lemma NextResponse(calls: nat -> Call, topic: nat, k: nat)
    requires Stable(calls, topic) && Reached(calls, topic, k)
    ensures Followed(calls, topic, k)
      == PageOf(calls(k), Watermark(calls(0).table, topic), History(calls, topic)[|Items(calls, topic, k)|..])
  {
    var snapshot, rows := Watermark(calls(0).table, topic), History(calls, topic);
    WatermarkCovers(calls(0).table, topic);
    VisibleSorted(calls(0).table, topic, snapshot);
    assert Visible(calls(k).table, topic, snapshot) == rows;
    var c := |Items(calls, topic, k)|;
    if k == 0 {
      assert rows[0..] == rows;
      hide Visible, Watermark, PageFrom, EncodeCursor;
    } else {
      RespondFrom(calls(k), topic, snapshot, rows, c);
      hide Visible, Watermark, Respond, PageOf, EncodeCursor, Views;
    }
  }

  /** The limit of call `k` is not zero, and the row the client needs next fits into a page of its own. */
  ghost predicate Proceeds(calls: nat -> Call, topic: nat, k: nat) {
    var rows, c := History(calls, topic), |Items(calls, topic, k)|;
    calls(k).Limit() >= 1 && (c < |rows| ==> calls(k).size(Views(rows[c..c + 1])) <= calls(k).Budget())
  }

  /**
   A call that still has rows to return moves the client on exactly if it proceeds, and then by a run of
   the very next rows; it says "end" exactly when all rows have been returned.
   */
  lemma CallProgress(calls: nat -> Call, topic: nat, k: nat)
    requires Stable(calls, topic) && Reached(calls, topic, k)
    requires |Items(calls, topic, k)| < |History(calls, topic)|
    ensures Followed(calls, topic, k).next.Some? <==> Proceeds(calls, topic, k)
    ensures Proceeds(calls, topic, k) ==> Reached(calls, topic, k + 1)
    ensures Proceeds(calls, topic, k) <==> |Items(calls, topic, k + 1)| > |Items(calls, topic, k)|
    ensures Followed(calls, topic, k).end <==> |Items(calls, topic, k + 1)| == |History(calls, topic)|
  {
    hide Stable, EncodeCursor, PageOf, Watermark, Views, Respond, Visible, PageFrom;
    NextResponse(calls, topic, k);
    var all, c := History(calls, topic), |Items(calls, topic, k)|;
    hide History;
    PageFacts(calls(k), Watermark(calls(0).table, topic), all[c..]);
    var page := Followed(calls, topic, k);
    hide Followed;
    assert all[c..][..1] == all[c..c + 1];
    Extend(all, c, Items(calls, topic, k), page.items);
  }

  lemma Extend(all: seq<Row>, c: nat, held: seq<View>, items: seq<View>)
    requires c <= |all| && |items| <= |all| - c && held == Views(all[..c]) && items == Views(all[c..][..|items|])
    ensures held + items == Views(all[..c + |items|])
    ensures items != [] ==> all[c..][|items| - 1] == all[c + |items| - 1]
  {
  }

  /**
   Following `next` until `end` takes at most one call per row and returns the rows of the first call's
   snapshot exactly once and in order, whatever limits and byte budgets the calls use.
   */
  lemma {:induction false} FollowingIsExact(calls: nat -> Call, topic: nat, k: nat) returns (m: nat)
    requires Stable(calls, topic) && Reached(calls, topic, k) && |Items(calls, topic, k)| < |History(calls, topic)|
    requires forall j: nat :: Proceeds(calls, topic, j)
    ensures k < m && m - k <= |History(calls, topic)| - |Items(calls, topic, k)|
    ensures Items(calls, topic, m) == Views(History(calls, topic))
    ensures forall j: nat | k <= j < m :: Followed(calls, topic, j).end <==> j == m - 1
    decreases |History(calls, topic)| - |Items(calls, topic, k)|
  {
    hide Followed, Proceeds, Stable, History, Items;
    var rows := History(calls, topic);
    CallProgress(calls, topic, k);
    assert Proceeds(calls, topic, k);
    HeldIsPrefix(calls, topic, k + 1);
    hide Reached;
    if |Items(calls, topic, k + 1)| == |rows| {
      m := k + 1;
    } else {
      m := FollowingIsExact(calls, topic, k + 1);
      forall j: nat | k <= j < m
        ensures Followed(calls, topic, j).end <==> j == m - 1
      {
        if j == k { assert k < m - 1; }
      }
    }
  }

  lemma HeldIsPrefix(calls: nat -> Call, topic: nat, k: nat)
    requires Reached(calls, topic, k)
    ensures |Items(calls, topic, k)| <= |History(calls, topic)|
    ensures |Items(calls, topic, k)| == |History(calls, topic)| ==>
      Items(calls, topic, k) == Views(History(calls, topic))
  {
  }

  /** From the first call: a whole traversal, or one empty final page for an empty history. */
  lemma TraversalIsExact(calls: nat -> Call, topic: nat) returns (m: nat)
    requires Stable(calls, topic) && forall j: nat :: Proceeds(calls, topic, j)
    ensures 1 <= m <= (if History(calls, topic) == [] then 1 else |History(calls, topic)|)
    ensures Items(calls, topic, m) == Views(History(calls, topic))
    ensures forall j: nat | j < m :: Followed(calls, topic, j).end <==> j == m - 1
  {
    var rows := History(calls, topic);
    assert rows[..0] == [];
    assert Reached(calls, topic, 0);
    if rows == [] {
      m := 1;
      NextResponse(calls, topic, 0);
      PageFacts(calls(0), Watermark(calls(0).table, topic), rows[0..]);
      hide Stable, Proceeds, PageOf, History, Followed;
    } else {
      hide Stable, Proceeds, Followed, History;
      m := FollowingIsExact(calls, topic, 0);
    }
  }
}
