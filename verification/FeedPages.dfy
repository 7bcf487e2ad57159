/** Reading the log back: one page, one link, one message, from the window in memory
    or from the rows on disk. */
module FeedPages {
  import opened Common
  import opened Rfc9162
  import opened FeedModel

  /** One page of a log and the head standing at its last message. */
  datatype Page = Page(messages: seq<Published>, head: Option<(nat, Digest)>)

  function Least(a: nat, b: nat): nat {
    if a < b then a else b
  }

  /** What `page(since, limit)` promises, said of the log alone. */
  function PageOf(h: Hasher, log: seq<Bytes>, since: nat, limit: nat): Page {
    var from := Least(since, |log|);
    var upto := Least(since + limit, |log|);
    Page(Messages(log)[from..upto], if from < upto then Some((upto, ChainAfter(h, log, upto))) else None)
  }

  /** A page is the next messages after `since`, as many as there are and no more than
      `limit`, each under its own number. */
  lemma PageSays(h: Hasher, log: seq<Bytes>, since: nat, limit: nat)
    ensures var page := PageOf(h, log, since, limit);
            var n := |page.messages|;
            && n <= limit && (since + n < |log| ==> n == limit) && (n > 0 ==> since + n <= |log|)
            && (forall i | 0 <= i < n :: page.messages[i].id == since + i + 1 && page.messages[i].json == log[since + i])
            && page.head == if n == 0 then None else Some((since + n, ChainOf(h, log[..since + n])))
  {
    hide ChainOf;
  }

  /** What a reader collects that asks again after the last message it has. */
  function ReadOn(h: Hasher, log: seq<Bytes>, since: nat, limit: nat): seq<Published>
    requires limit > 0
    decreases |log| - since
  {
    var page := PageOf(h, log, since, limit).messages;
    if page == [] then [] else page + ReadOn(h, log, since + |page|, limit)
  }

  /** It collects every message after the first `since`, once and in order. */
  lemma {:induction false} ReadOnReadsAll(h: Hasher, log: seq<Bytes>, since: nat, limit: nat)
    requires limit > 0 && since <= |log|
    ensures ReadOn(h, log, since, limit) == Messages(log)[since..]
    decreases |log| - since
  {
    hide ChainAfter;
    var n := |PageOf(h, log, since, limit).messages|;
    if n > 0 {
      ReadOnReadsAll(h, log, since + n, limit);
      assert Messages(log)[since..since + n] + Messages(log)[since + n..] == Messages(log)[since..];
    }
  }

  /** `WHERE id > ?1 ORDER BY id LIMIT ?2`. */
  function RowsAfter(rows: seq<Row>, since: nat, limit: nat): seq<Row> {
    if rows == [] || limit == 0 then []
    else if rows[0].id > since then [rows[0]] + RowsAfter(rows[1..], since, limit - 1)
    else RowsAfter(rows[1..], since, limit)
  }

  /** `WHERE id = ?1`. */
  function RowAt(rows: seq<Row>, id: nat): Option<Row> {
    if rows == [] then None else if rows[0].id == id then Some(rows[0]) else RowAt(rows[1..], id)
  }

  lemma {:induction false} RowsAfterSlice(rows: seq<Row>, first: nat, since: nat, limit: nat)
    requires forall i | 0 <= i < |rows| :: rows[i].id == first + 1 + i
    ensures var skip := if since < first then 0 else Least(since - first, |rows|);
            RowsAfter(rows, since, limit) == rows[skip..Least(skip + limit, |rows|)]
    decreases |rows|
  {
    if rows != [] && limit > 0 {
      var rest := rows[1..];
      assert forall i | 0 <= i < |rest| :: rest[i] == rows[i + 1];
      var here := rows[0].id > since;
      RowsAfterSlice(rest, first + 1, since, if here then limit - 1 else limit);
      if here {
        HeadAndRest(rows, Least(limit - 1, |rest|));
      } else {
        var skip := Least(since - first - 1, |rest|);
        SliceOfDrop(rows, 1, skip, Least(skip + limit, |rest|));
      }
    }
  }

  lemma HeadAndRest<T>(s: seq<T>, n: nat)
    requires n < |s|
    ensures [s[0]] + s[1..][..n] == s[..n + 1]
  {}

  lemma {:induction false} RowAtIndex(rows: seq<Row>, first: nat, id: nat)
    requires forall i | 0 <= i < |rows| :: rows[i].id == first + 1 + i
    ensures RowAt(rows, id) == if first < id <= first + |rows| then Some(rows[id - first - 1]) else None
    decreases |rows|
  {
    if rows != [] {
      assert forall i | 0 <= i < |rows[1..]| :: rows[1..][i] == rows[i + 1];
      RowAtIndex(rows[1..], first + 1, id);
    }
  }

  lemma PageFromRows(h: Hasher, log: seq<Bytes>, since: nat, limit: nat)
    ensures RowsAfter(RowsOf(h, log), since, limit)
            == RowsOf(h, log)[Least(since, |log|)..Least(Least(since, |log|) + limit, |log|)]
  {
    hide ChainAfter;
    RowsAfterSlice(RowsOf(h, log), 0, since, limit);
  }

  /** A row that can be served. */
  predicate Servable(row: Row) {
    row.id >= 0 && row.chain.Some?
  }

  predicate AllServable(rows: seq<Row>) {
    forall i | 0 <= i < |rows| :: Servable(rows[i])
  }

  /** The rows a query found, as a page with the chain stored beside the last one. */
  ghost predicate IsPage(found: seq<Row>, page: Page) {
    && |page.messages| == |found|
    && (forall i | 0 <= i < |found| :: Servable(found[i]) && page.messages[i] == Published(found[i].id, found[i].json))
    && page.head == if found == [] then None
                    else Some((found[|found| - 1].id, found[|found| - 1].chain.value))
  }

  /** The disk branch of `page`. */
  method PageFromDisk(rows: seq<Row>, since: nat, limit: nat) returns (r: Result<Page>)
    ensures var found := RowsAfter(rows, since, limit);
            && (r.Ok? <==> AllServable(found))
            && (r.Ok? ==> IsPage(found, r.value))
  {
    hide RowsAfter;
    var found := RowsAfter(rows, since, limit);
    var messages: seq<Published>, head: Option<(nat, Digest)> := [], None;
    for n := 0 to |found|
      invariant |messages| == n
      invariant forall i | 0 <= i < n :: Servable(found[i]) && messages[i] == Published(found[i].id, found[i].json)
      invariant head == if n == 0 then None else Some((found[n - 1].id, found[n - 1].chain.value))
    {
      var row := found[n];
      assert AllServable(found) ==> Servable(row);
      if row.id < 0 { return Err("a row with a negative message id"); }
      if row.chain.None? { return Err("a stored chain is not 32 bytes"); }
      head := Some((row.id, row.chain.value));
      messages := messages + [Published(row.id, row.json)];
    }
    r := Ok(Page(messages, head));
  }

  /** Read from the rows of a log, a page is the page of the log. */
  lemma DiskPageIsLogPage(h: Hasher, log: seq<Bytes>, since: nat, limit: nat, page: Page)
    requires IsPage(RowsAfter(RowsOf(h, log), since, limit), page)
    ensures page == PageOf(h, log, since, limit)
  {
    hide ChainAfter, RowsAfter;
    PageFromRows(h, log, since, limit);
    var from := Least(since, |log|);
    var found := RowsOf(h, log)[from..Least(from + limit, |log|)];
    assert forall i | 0 <= i < |found| ::
             found[i] == Row(from + i + 1, log[from + i], Some(ChainAfter(h, log, from + i + 1)));
    assert page.messages == PageOf(h, log, since, limit).messages;
  }

  lemma LogRowsServe(h: Hasher, log: seq<Bytes>, since: nat, limit: nat)
    ensures AllServable(RowsAfter(RowsOf(h, log), since, limit))
  {
    hide ChainAfter, RowsAfter;
    PageFromRows(h, log, since, limit);
  }

  /** The window branch over the last messages of a log. */
  lemma WindowPageIsLogPage(h: Hasher, log: seq<Bytes>, since: nat, limit: nat, index: nat, end: nat)
    requires since < |log| && |log| - |Tail(Messages(log))| <= since
    requires index == since - (|log| - |Tail(Messages(log))|)
    requires end == Least(index + limit, |Tail(Messages(log))|)
    ensures index <= end <= |Tail(Links(h, log))|
    ensures var messages := Tail(Messages(log))[index..end];
            PageOf(h, log, since, limit)
            == Page(messages, if index < end then Some((messages[|messages| - 1].id, Tail(Links(h, log))[end - 1]))
                              else None)
  {
    hide ChainAfter, Tail;
    TailIs(Messages(log));
    TailIs(Links(h, log));
    SliceOfDrop(Messages(log), |log| - |Tail(Messages(log))|, index, end);
  }

  lemma SliceOfDrop<T>(s: seq<T>, from: nat, index: nat, end: nat)
    requires from <= |s| && index <= end <= |s| - from
    ensures s[from..][index..end] == s[from + index..from + end]
  {}
}
