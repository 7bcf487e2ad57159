/** The auditor's backward scan of a contract's event log, through an endpoint
    whose answers are arbitrary. */
module LogScan {
  import opened Common

  const LOG_CHUNK: nat := 9_000
  const MAX_OPEN_ENDED_REQUESTS: nat := 400
  const MAX_BOUNDED_REQUESTS: nat := 5_000

  /** One anchor event: the contract's own counter, its block, and what it says. */
  datatype Event = Event(index: nat, block: nat, payload: string)

  /** A served log. `decoded` is None where its block number or its data does not decode. */
  datatype RawLog = RawLog(decoded: Option<Event>)

  /** One `eth_getLogs` answer. */
  datatype Answer = Logs(logs: seq<RawLog>) | RangeRefused | Failed

  /** The endpoint: what it answers to its k-th request, for blocks `from..=to`. */
  type Endpoint = (nat, nat, nat) -> Answer

  /** A block range that was answered with logs, and the request that asked for it. */
  datatype Window = Window(request: nat, from: nat, to: nat)

  datatype Scan = Scan(found: map<nat, Event>, scannedFrom: nat, complete: bool)

  predicate HasEvery(found: map<nat, Event>, total: nat) {
    |found| >= total && forall i | 1 <= i <= total :: i in found
  }

  /** Windows that follow each other backwards from `head` to `low`, with no block
      between two of them and none in two of them. */
  predicate Tiles(windows: seq<Window>, low: nat, head: nat) {
    && windows != [] && windows[0].to == head && windows[|windows| - 1].from == low
    && (forall i | 0 <= i < |windows| :: windows[i].from <= windows[i].to)
    && (forall i | 0 < i < |windows| :: windows[i].to + 1 == windows[i - 1].from)
  }

  lemma {:induction false} EarlierWindowsAreHigher(windows: seq<Window>, low: nat, head: nat, i: nat, j: nat)
    requires Tiles(windows, low, head) && i < j < |windows|
    ensures windows[j].to < windows[i].from
    decreases j - i
  {
    if i + 1 < j { EarlierWindowsAreHigher(windows, low, head, i + 1, j); }
  }

  lemma {:induction false} TilesCover(windows: seq<Window>, low: nat, head: nat, block: nat) returns (i: nat)
    requires Tiles(windows, low, head) && low <= block <= head
    ensures i < |windows| && windows[i].from <= block <= windows[i].to
  {
    i := |windows| - 1;
    if block > windows[i].to {
      i := TilesCover(windows[..i], windows[i - 1].from, head, block);
    }
  }

  /** Every block between the ends is in one window and in one only. */
  lemma TilesCoverOnce(windows: seq<Window>, low: nat, head: nat, block: nat) returns (i: nat)
    requires Tiles(windows, low, head) && low <= block <= head
    ensures i < |windows|
    ensures forall j: nat | j < |windows| :: windows[j].from <= block <= windows[j].to <==> j == i
  {
    i := TilesCover(windows, low, head, block);
    forall j: nat | j < |windows| && j != i
      ensures !(windows[j].from <= block <= windows[j].to)
    {
      if i < j { EarlierWindowsAreHigher(windows, low, head, i, j); }
      else { EarlierWindowsAreHigher(windows, low, head, j, i); }
    }
  }

  /** The endpoint answers with the events of `chain` in the asked blocks, all of
      them and nothing else, whenever it answers with logs. */
  ghost predicate Truthful(ask: Endpoint, chain: set<Event>) {
    forall k: nat, from: nat, to: nat | ask(k, from, to).Logs? ::
      && (forall i | 0 <= i < |ask(k, from, to).logs| ::
            && ask(k, from, to).logs[i].decoded.Some?
            && ask(k, from, to).logs[i].decoded.value in chain)
      && (forall e | e in chain && from <= e.block <= to :: RawLog(Some(e)) in ask(k, from, to).logs)
  }

  /** The contract raises its counter by one for each write. */
  ghost predicate OneEventPerIndex(chain: set<Event>) {
    forall e, f | e in chain && f in chain && e.index == f.index :: e == f
  }

  /** Every event of `chain` in the blocks is in `found`, under its own index. */
  ghost predicate FindsAll(found: map<nat, Event>, chain: set<Event>, low: nat, head: nat) {
    forall e | e in chain && low <= e.block <= head :: e.index in found && found[e.index] == e
  }

  /** One answer's logs, added to what is already found. */
  method AddLogs(found: map<nat, Event>, logs: seq<RawLog>) returns (r: Result<map<nat, Event>>)
    ensures r.Ok? <==> forall i | 0 <= i < |logs| :: logs[i].decoded.Some?
    ensures r.Ok? ==> found.Keys <= r.value.Keys
    ensures r.Ok? ==> forall e | RawLog(Some(e)) in logs :: e.index in r.value
    ensures r.Ok? ==> forall x | x in r.value ::
                        || (x in found && r.value[x] == found[x])
                        || (RawLog(Some(r.value[x])) in logs && r.value[x].index == x)
  {
    var now := found;
    for i := 0 to |logs|
      invariant found.Keys <= now.Keys
      invariant forall j | 0 <= j < i :: logs[j].decoded.Some? && logs[j].decoded.value.index in now
      invariant forall x | x in now ::
                  (x in found && now[x] == found[x]) || (RawLog(Some(now[x])) in logs[..i] && now[x].index == x)
    {
      if logs[i].decoded.None? { return Err("a log does not decode"); }
      var event := logs[i].decoded.value;
      assert logs[..i + 1] == logs[..i] + [RawLog(Some(event))];
      now := now[event.index := event];
    }
    assert logs[..|logs|] == logs;
    return Ok(now);
  }

  function Max(a: nat, b: nat): nat { if a < b then b else a }

  ghost predicate Answered(ask: Endpoint, windows: seq<Window>, requests: nat) {
    forall i | 0 <= i < |windows| ::
      windows[i].request < requests && ask(windows[i].request, windows[i].from, windows[i].to).Logs?
  }

  /** With a truthful endpoint, what is found is the chain's own events, and all of
      them down to `low` once a window has been read. */
  ghost predicate FindsTruth(ask: Endpoint, chain: set<Event>, found: map<nat, Event>, read: bool, low: nat,
                             head: nat) {
    Truthful(ask, chain) && OneEventPerIndex(chain) ==>
      && (forall x | x in found :: found[x] in chain && found[x].index == x)
      && (read ==> FindsAll(found, chain, low, head))
  }

  lemma TilesExtend(windows: seq<Window>, low: nat, head: nat, w: Window)
    requires w.from <= w.to
    requires if windows == [] then w.to == head else Tiles(windows, low, head) && w.to + 1 == low
    ensures Tiles(windows + [w], w.from, head)
  {}

  lemma AnswerKeepsTruth(ask: Endpoint, chain: set<Event>, found: map<nat, Event>, now: map<nat, Event>,
                         read: bool, low: nat, head: nat, w: Window)
    requires FindsTruth(ask, chain, found, read, low, head)
    requires if read then low == w.to + 1 else w.to == head
    requires ask(w.request, w.from, w.to).Logs?
    requires found.Keys <= now.Keys
    requires var logs := ask(w.request, w.from, w.to).logs;
             && (forall e | RawLog(Some(e)) in logs :: e.index in now)
             && (forall x | x in now :: (x in found && now[x] == found[x])
                                        || (RawLog(Some(now[x])) in logs && now[x].index == x))
    ensures FindsTruth(ask, chain, now, true, w.from, head)
  {}

  /** The sizes a scan asks for, by how often the endpoint has refused one. */
  ghost predicate Halved(chunk: nat, refused: nat) {
    || (refused == 0 && chunk == 9_000) || (refused == 1 && chunk == 4_500)
    || (refused == 2 && chunk == 2_250) || (refused == 3 && chunk == 1_125)
    || (refused == 4 && chunk == 562) || (refused == 5 && chunk == 281)
    || (refused == 6 && chunk == 140) || (refused == 7 && chunk == 70)
  }

  lemma HalvedSays(chunk: nat, refused: nat)
    requires Halved(chunk, refused)
    ensures 70 <= chunk && refused <= 7
    ensures if chunk <= 100 then chunk == 70 else Halved(chunk / 2, refused + 1)
  {}

  lemma EverySays(found: map<nat, Event>, total: nat)
    ensures HasEvery(found, total) <==> |found| >= total && forall i | 1 <= i <= total :: i in found
  {}

  ghost predicate Recorded(chain: set<Event>, i: nat, floor: nat, head: nat) {
    exists e :: e in chain && e.index == i && floor <= e.block <= head
  }

  /** The endpoint is truthful, and each of the first `total` events of `chain` lies in
      the blocks. */
  ghost predicate AllThere(ask: Endpoint, chain: set<Event>, total: nat, floor: nat, head: nat) {
    && Truthful(ask, chain) && OneEventPerIndex(chain)
    && forall i | 1 <= i <= total :: Recorded(chain, i, floor, head)
  }

  lemma {:induction false} DistinctCount(found: map<nat, Event>, total: nat)
    requires forall i | 1 <= i <= total :: i in found
    ensures |found| >= total
    decreases total
  {
    if total > 0 {
      var fewer := map x | x in found && x != total :: found[x];
      assert fewer.Keys == found.Keys - {total};
      DistinctCount(fewer, total - 1);
    }
  }

  /** Reading down to the floor finds every event there is. */
  lemma ThereIsFound(ask: Endpoint, chain: set<Event>, found: map<nat, Event>, total: nat, read: bool, low: nat,
                     floor: nat, head: nat)
    requires FindsTruth(ask, chain, found, read, low, head)
    ensures AllThere(ask, chain, total, floor, head) && read && low <= floor ==> HasEvery(found, total)
  {
    if AllThere(ask, chain, total, floor, head) && read && low <= floor {
      assert FindsAll(found, chain, low, head);
      hide Truthful;
      forall i | 1 <= i <= total ensures i in found {
        assert Recorded(chain, i, floor, head);
        var e :| e in chain && e.index == i && floor <= e.block <= head;
      }
      DistinctCount(found, total);
    }
  }

  /** No window was read below one that had everything already. */
  ghost predicate NoneWasted(ask: Endpoint, chain: set<Event>, total: nat, windows: seq<Window>, head: nat) {
    forall i | 0 <= i < |windows| - 1 :: !AllThere(ask, chain, total, windows[i].from, head)
  }

  /** One window more, while an event is still missing. */
  lemma NotWasted(ask: Endpoint, chain: set<Event>, total: nat, found: map<nat, Event>, windows: seq<Window>,
                  scannedFrom: nat, head: nat, w: Window)
    requires NoneWasted(ask, chain, total, windows, head) && !HasEvery(found, total)
    requires windows != [] ==> windows[|windows| - 1].from == scannedFrom
    requires FindsTruth(ask, chain, found, windows != [], scannedFrom, head)
    ensures NoneWasted(ask, chain, total, windows + [w], head)
  {
    ThereIsFound(ask, chain, found, total, windows != [], scannedFrom, scannedFrom, head);
    hide HasEvery, FindsTruth, AllThere;
  }

  /** What the loop keeps. */
  ghost predicate Scanning(ask: Endpoint, chain: set<Event>, head: nat, floor: nat, found: map<nat, Event>,
                           windows: seq<Window>, refused: nat, chunk: nat, to: nat, scannedFrom: nat)
  {
    && Halved(chunk, refused)
    && (if windows == [] then to == scannedFrom == head
        else floor < scannedFrom && to == scannedFrom - 1 && head - scannedFrom + 1 >= 70 * |windows|
             && windows[|windows| - 1].from == scannedFrom && (floor <= head ==> Tiles(windows, scannedFrom, head)))
    && Answered(ask, windows, |windows| + refused)
    && FindsTruth(ask, chain, found, windows != [], scannedFrom, head)
  }

  /** What has been read when the loop ends, at the floor or not. */
  ghost predicate Scanned(ask: Endpoint, chain: set<Event>, head: nat, floor: nat, found: map<nat, Event>,
                          windows: seq<Window>, refused: nat, scannedFrom: nat)
  {
    && refused <= 7 && Answered(ask, windows, |windows| + refused)
    && (if windows == [] then scannedFrom == head
        else (floor <= head ==> Tiles(windows, scannedFrom, head))
             && (scannedFrom == floor || head - scannedFrom + 1 >= 70 * |windows|))
    && FindsTruth(ask, chain, found, windows != [], scannedFrom, head)
  }

  lemma ReadsOne(ask: Endpoint, chain: set<Event>, head: nat, floor: nat, found: map<nat, Event>,
                 windows: seq<Window>, refused: nat, chunk: nat, to: nat, scannedFrom: nat, w: Window,
                 now: map<nat, Event>, total: nat)
    requires Scanning(ask, chain, head, floor, found, windows, refused, chunk, to, scannedFrom)
    requires NoneWasted(ask, chain, total, windows, head) && !HasEvery(found, total)
    requires w == Window(|windows| + refused, Max(SaturatingSub(to, chunk - 1), floor), to)
    requires ask(w.request, w.from, w.to).Logs? && found.Keys <= now.Keys
    requires var logs := ask(w.request, w.from, w.to).logs;
             && (forall e | RawLog(Some(e)) in logs :: e.index in now)
             && (forall x | x in now :: (x in found && now[x] == found[x])
                                        || (RawLog(Some(now[x])) in logs && now[x].index == x))
    ensures w.from <= floor || w.from == 0 ==>
              Scanned(ask, chain, head, floor, now, windows + [w], refused, w.from) && w.from == floor
    ensures w.from > floor && w.from > 0 ==>
              Scanning(ask, chain, head, floor, now, windows + [w], refused, chunk, w.from - 1, w.from)
    ensures NoneWasted(ask, chain, total, windows + [w], head)
  {
    HalvedSays(chunk, refused);
    NotWasted(ask, chain, total, found, windows, scannedFrom, head, w);
    AnswerKeepsTruth(ask, chain, found, now, windows != [], scannedFrom, head, w);
    hide FindsTruth, Tiles, Halved, NoneWasted, HasEvery;
    if floor <= head { TilesExtend(windows, scannedFrom, head, w); }
  }

  lemma StartsScan(ask: Endpoint, chain: set<Event>, head: nat, floor: nat, total: nat)
    ensures Scanning(ask, chain, head, floor, map[], [], 0, LOG_CHUNK, head, head)
    ensures NoneWasted(ask, chain, total, [], head)
  {}

  lemma RefusedOne(ask: Endpoint, chain: set<Event>, head: nat, floor: nat, found: map<nat, Event>,
                   windows: seq<Window>, refused: nat, chunk: nat, to: nat, scannedFrom: nat)
    requires Scanning(ask, chain, head, floor, found, windows, refused, chunk, to, scannedFrom)
    ensures if chunk <= 100 then chunk == 70
            else Scanning(ask, chain, head, floor, found, windows, refused + 1, chunk / 2, to, scannedFrom)
  {
    HalvedSays(chunk, refused);
    hide FindsTruth, Tiles, Halved;
  }

  lemma EndsWell(ask: Endpoint, chain: set<Event>, head: nat, floor: nat, found: map<nat, Event>,
                 windows: seq<Window>, refused: nat, chunk: nat, to: nat, scannedFrom: nat)
    requires Scanning(ask, chain, head, floor, found, windows, refused, chunk, to, scannedFrom)
    ensures Scanned(ask, chain, head, floor, found, windows, refused, scannedFrom)
  {
    HalvedSays(chunk, refused);
    hide FindsTruth, Tiles, Halved;
  }

  /** What a scan that ended says for itself. */
  lemma ScannedSays(ask: Endpoint, chain: set<Event>, head: nat, floor: nat, found: map<nat, Event>,
                    windows: seq<Window>, refused: nat, scannedFrom: nat, total: nat)
    requires Scanned(ask, chain, head, floor, found, windows, refused, scannedFrom)
    ensures Answered(ask, windows, |windows| + refused) && refused <= 7
    ensures windows == [] ==> scannedFrom == head
    ensures windows != [] && floor <= head ==> Tiles(windows, scannedFrom, head)
    ensures windows != [] ==> scannedFrom == floor || head - scannedFrom + 1 >= 70 * |windows|
    ensures FindsTruth(ask, chain, found, windows != [], scannedFrom, head)
    ensures AllThere(ask, chain, total, floor, head) && windows != [] && scannedFrom <= floor ==>
              HasEvery(found, total)
    ensures HasEvery(found, total) <==> |found| >= total && forall i | 1 <= i <= total :: i in found
  {
    ThereIsFound(ask, chain, found, total, windows != [], scannedFrom, floor, head);
    EverySays(found, total);
    hide FindsTruth, Tiles, HasEvery;
  }

  /** `scan_events`. `windows` records the ranges that were answered with logs. */
  method ScanEvents(ask: Endpoint, head: nat, fromBlock: Option<nat>, total: nat, ghost chain: set<Event>)
    returns (r: Result<Scan>, requests: nat, ghost windows: seq<Window>)
    ensures requests <= (if fromBlock.Some? then 5_000 else 400) && Answered(ask, windows, requests)
    // It stops at the window that completes it.
    ensures NoneWasted(ask, chain, total, windows, head) && (total == 0 ==> requests == 0)
    // It errs only where the last request failed, was answered with a log that does not
    // decode, or was refused for 70 blocks or fewer.
    ensures r.Err? ==>
              exists from: nat, to: nat ::
                var answer := ask(requests, from, to);
                || answer.Failed?
                || (answer.Logs? && exists i | 0 <= i < |answer.logs| :: answer.logs[i].decoded.None?)
                || (answer.RangeRefused? && to - from < 70)
    ensures r.Ok? ==>
              (r.value.complete <==>
               |r.value.found| >= total && forall i | 1 <= i <= total :: i in r.value.found)
    ensures r.Ok? && windows == [] ==> r.value.scannedFrom == head
    ensures r.Ok? && windows != [] && (fromBlock.Some? ==> fromBlock.value <= head) ==>
              Tiles(windows, r.value.scannedFrom, head)
    // A scan that is not complete has read down to its floor or spent its budget, on at
    // most seven refusals and on windows of at least 70 blocks each.
    ensures r.Ok? && !r.value.complete ==>
              || (windows != [] && r.value.scannedFrom == if fromBlock.Some? then fromBlock.value else 0)
              || (requests == (if fromBlock.Some? then 5_000 else 400)
                  && head - r.value.scannedFrom + 1 >= 70 * (requests - 7))
    ensures r.Ok? ==> FindsTruth(ask, chain, r.value.found, windows != [], r.value.scannedFrom, head)
    // From a truthful endpoint it finds every event there is, in as many blocks as the
    // budget reaches at 70 a window.
    ensures
      var floor := if fromBlock.Some? then fromBlock.value else 0;
      var reach := if fromBlock.Some? then 349_510 else 27_510;
      r.Ok? && AllThere(ask, chain, total, floor, head) && head - floor < reach ==> r.value.complete
  {
    var floor := if fromBlock.Some? then fromBlock.value else 0;
    var budget := if fromBlock.Some? then MAX_BOUNDED_REQUESTS else MAX_OPEN_ENDED_REQUESTS;
    var found: map<nat, Event> := map[];
    var to, scannedFrom, chunk := head, head, LOG_CHUNK;
    ghost var refused := 0;
    requests, windows := 0, [];
    hide FindsTruth, HasEvery, Truthful, FindsAll, Tiles, Halved, AllThere, Answered, Scanning, Scanned, NoneWasted;
    StartsScan(ask, chain, head, floor, total);
    while requests < budget && !HasEvery(found, total)
      invariant requests <= budget && requests == |windows| + refused
      invariant Scanning(ask, chain, head, floor, found, windows, refused, chunk, to, scannedFrom)
      invariant NoneWasted(ask, chain, total, windows, head) && (total == 0 ==> requests == 0)
      decreases budget - requests
    {
      EverySays(found, total);
      var from := Max(SaturatingSub(to, chunk - 1), floor);
      var answer := ask(requests, from, to);
      match answer {
        case Logs(logs) =>
          var added := AddLogs(found, logs);
          if added.Err? {
            assert ask(requests, from, to) == answer;
            return Err(added.reason), requests, windows;
          }
          ghost var w := Window(requests, from, to);
          ReadsOne(ask, chain, head, floor, found, windows, refused, chunk, to, scannedFrom, w, added.value,
                   total);
          found, scannedFrom := added.value, from;
          requests, windows := requests + 1, windows + [w];
          if from <= floor || from == 0 { break; }
          to := from - 1;
        case RangeRefused =>
          RefusedOne(ask, chain, head, floor, found, windows, refused, chunk, to, scannedFrom);
          if chunk <= 100 {
            assert ask(requests, from, to) == answer;
            return Err("range"), requests, windows;
          }
          chunk := chunk / 2;
          refused := refused + 1;
          requests := requests + 1;
        case Failed =>
          assert ask(requests, from, to) == answer;
          return Err("the endpoint failed"), requests, windows;
      }
    }
    if !Scanned(ask, chain, head, floor, found, windows, refused, scannedFrom) {
      EndsWell(ask, chain, head, floor, found, windows, refused, chunk, to, scannedFrom);
    }
    ScannedSays(ask, chain, head, floor, found, windows, refused, scannedFrom, total);
    return Ok(Scan(found, scannedFrom, HasEvery(found, total))), requests, windows;
  }
}
