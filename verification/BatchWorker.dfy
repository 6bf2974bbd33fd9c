/**
The log writer: callers put records and flush requests into a bounded channel, a worker takes them
out, collects records in a buffer and hands the buffer to one insert at a time. Ticks may fall between
any two steps.
 */
module BatchWorker {
  import opened Common

  const BATCH_MAX_ROWS := 200
  const CHANNEL_CAPACITY := 4096

  /** A flush request carries the channel on which it is acknowledged, here a ticket. */
  datatype Cmd<R> = Record(rec: R) | Flush(ticket: nat)

  datatype Outcome = Accepted | Dropped | Unavailable

  datatype State<R> = State(
    queue: seq<Cmd<R>>,        // in the channel
    buf: seq<R>,               // collected by the worker
    pendingFlush: seq<nat>,    // flushes the worker has put off
    batches: seq<seq<R>>,      // handed to the insert
    acked: seq<nat>,           // flushes acknowledged
    closed: bool,              // all senders are gone
    stopped: bool)             // the worker has ended

  // ---- Steps ----

  function Append<R>(s: State<R>, r: R): (State<R>, Outcome) {
    if s.stopped then (s, Unavailable)
    else if |s.queue| >= CHANNEL_CAPACITY then (s, Dropped)
    else (s.(queue := s.queue + [Record(r)]), Accepted)
  }

  function Insert<R>(s: State<R>): State<R> {
    if s.buf == [] then s else s.(batches := s.batches + [s.buf], buf := [])
  }

  function AckPending<R>(s: State<R>): State<R> {
    s.(acked := s.acked + s.pendingFlush, pendingFlush := [])
  }

  function Push<R>(s: State<R>, r: R): State<R> {
    var pushed := s.(buf := s.buf + [r]);
    if |pushed.buf| >= BATCH_MAX_ROWS then AckPending(Insert(pushed)) else pushed
  }

  function Answer<R>(s: State<R>, t: nat): State<R> {
    Insert(s).(acked := s.acked + [t])
  }

  function Receive<R>(s: State<R>): State<R>
    requires s.queue != []
  {
    var rest := s.(queue := s.queue[1..]);
    match s.queue[0]
    case Record(r) => Push(rest, r)
    case Flush(t) => Answer(rest, t)
  }

  function Tick<R>(s: State<R>): State<R> {
    if s.buf == [] then s else AckPending(Insert(s))
  }

  /** The channel is closed and empty: insert what is left and end. */
  function Stop<R>(s: State<R>): State<R> {
    Insert(s).(stopped := true)
  }

  // ---- The worker ----

  class LogWorker<R> {
    var queue: seq<Cmd<R>>
    var buf: seq<R>
    var pendingFlush: seq<nat>
    var batches: seq<seq<R>>
    var acked: seq<nat>
    var closed: bool
    var stopped: bool

    ghost function View(): State<R>
      reads this
    {
      State(queue, buf, pendingFlush, batches, acked, closed, stopped)
    }

    constructor ()
      ensures View() == State([], [], [], [], [], false, false)
    {
      queue, buf, pendingFlush, batches, acked, closed, stopped := [], [], [], [], [], false, false;
    }

    method TryAppend(r: R) returns (outcome: Outcome)
      modifies this
      ensures (View(), outcome) == Append(old(View()), r)
    {
      if stopped {
        return Unavailable;
      }
      if |queue| >= CHANNEL_CAPACITY {
        return Dropped;
      }
      queue := queue + [Record(r)];
      outcome := Accepted;
    }

    method FlushBatch()
      modifies this`buf, this`batches
      ensures View() == Insert(old(View()))
    {
      if buf == [] {
        return;
      }
      batches := batches + [buf];
      buf := [];
    }

    method AckAllPending()
      modifies this`acked, this`pendingFlush
      ensures View() == AckPending(old(View()))
    {
      ghost var before := pendingFlush;
      while pendingFlush != []
        invariant acked + pendingFlush == old(acked) + before
        decreases |pendingFlush|
      {
        acked := acked + [pendingFlush[0]];
        pendingFlush := pendingFlush[1..];
      }
    }

    method HandleNext()
      requires queue != []
      modifies this
      ensures View() == Receive(old(View()))
    {
      var cmd := queue[0];
      queue := queue[1..];
      match cmd
      case Record(r) =>
        buf := buf + [r];
        if |buf| >= BATCH_MAX_ROWS {
          FlushBatch();
          AckAllPending();
        }
      case Flush(t) =>
        if buf != [] {
          FlushBatch();
        }
        acked := acked + [t];
    }

    method HandleTick()
      modifies this
      ensures View() == Tick(old(View()))
      ensures buf == [] && queue == old(queue) && (old(buf) != [] ==> pendingFlush == [])
      ensures batches == old(batches) + if old(buf) == [] then [] else [old(buf)]
    {
      if buf != [] {
        FlushBatch();
        AckAllPending();
      }
    }

    /** The rest of a worker's life once all senders are gone: empty the channel, then the buffer. */
    method DrainAndStop()
      requires closed && !stopped
      modifies this
      ensures queue == [] && buf == [] && stopped
      ensures Flat(batches) == old(Flat(batches) + buf + Records(queue))
    {
      ghost var all := Flat(batches) + buf + Records(queue);
      while queue != []
        invariant closed && Flat(batches) + buf + Records(queue) == all
        decreases |queue|
      {
        ReceiveKeepsOrder(View());
        HandleNext();
      }
      InsertKeepsOrder(View());
      if buf != [] {
        FlushBatch();
      }
      stopped := true;
    }
  }

  // ---- Order and completeness ----

  function Flat<R>(batches: seq<seq<R>>): seq<R> {
    if batches == [] then [] else Flat(batches[..|batches| - 1]) + batches[|batches| - 1]
  }

  function Records<R>(queue: seq<Cmd<R>>): seq<R> {
    if queue == [] then []
    else Records(queue[..|queue| - 1]) + match queue[|queue| - 1] case Record(r) => [r] case Flush(_) => []
  }

  /** The records that have left the channel, oldest first. */
  function Taken<R>(s: State<R>): seq<R> {
    Flat(s.batches) + s.buf
  }

  function Held<R>(s: State<R>): seq<R> {
    Taken(s) + Records(s.queue)
  }

  lemma {:induction false} RecordsConcat<R>(a: seq<Cmd<R>>, b: seq<Cmd<R>>)
    ensures Records(a + b) == Records(a) + Records(b)
  {
    if b == [] {
      assert a + b == a;
    } else {
      var n := |b| - 1;
      assert (a + b)[..|a + b| - 1] == a + b[..n];
      RecordsConcat(a, b[..n]);
    }
  }

  lemma RecordsHead<R>(queue: seq<Cmd<R>>)
    requires queue != []
    ensures Records(queue) == (if queue[0].Record? then [queue[0].rec] else []) + Records(queue[1..])
  {
    assert queue == [queue[0]] + queue[1..];
    RecordsConcat([queue[0]], queue[1..]);
    assert [queue[0]][..0] == [];
  }

  lemma InsertKeepsOrder<R>(s: State<R>)
    ensures Flat(Insert(s).batches) == Taken(s) == Taken(Insert(s)) && Insert(s).buf == []
  {
    if s.buf != [] {
      assert (s.batches + [s.buf])[..|s.batches|] == s.batches;
    }
  }

  lemma PushKeepsOrder<R>(s: State<R>, r: R)
    ensures Taken(Push(s, r)) == Taken(s) + [r] && |Flat(Push(s, r).batches)| >= |Flat(s.batches)|
  {
    var pushed := s.(buf := s.buf + [r]);
    assert Taken(pushed) == Taken(s) + [r];
    InsertKeepsOrder(pushed);
  }

  lemma ReceiveKeepsOrder<R>(s: State<R>)
    requires s.queue != []
    ensures Held(Receive(s)) == Held(s)
  {
    RecordsHead(s.queue);
    var rest := s.(queue := s.queue[1..]);
    match s.queue[0]
    case Record(r) =>
      PushKeepsOrder(rest, r);
      assert Taken(s) + ([r] + Records(rest.queue)) == (Taken(s) + [r]) + Records(rest.queue);
    case Flush(_) =>
      InsertKeepsOrder(rest);
      assert Records(s.queue) == Records(rest.queue);
  }

  // ---- Runs ----

  /** The store together with what its callers know: the records accepted, and for every flush how many records
      had been accepted when it entered the channel. */
  datatype World<R> = World(store: State<R>, accepted: seq<R>, barrier: map<nat, nat>)

  datatype Event<R> = DoAppend(rec: R) | DoFlush(ticket: nat) | DoReceive | DoTick | DoClose | DoStop

  /** Senders act until they are gone; a flush waits for room; the worker acts until it ends. */
  predicate Enabled<R>(w: World<R>, e: Event<R>) {
    match e
    case DoAppend(_) => !w.store.closed
    case DoFlush(t) => !w.store.closed && |w.store.queue| < CHANNEL_CAPACITY && t !in w.barrier
    case DoReceive => !w.store.stopped && w.store.queue != []
    case DoTick => !w.store.stopped
    case DoClose => true
    case DoStop => !w.store.stopped && w.store.closed && w.store.queue == []
  }

  function Next<R>(w: World<R>, e: Event<R>): World<R>
    requires Enabled(w, e)
  {
    match e
    case DoAppend(r) =>
      var (store, outcome) := Append(w.store, r);
      w.(store := store, accepted := if outcome == Accepted then w.accepted + [r] else w.accepted)
    case DoFlush(t) =>
      w.(store := w.store.(queue := w.store.queue + [Flush(t)]), barrier := w.barrier[t := |w.accepted|])
    case DoReceive => w.(store := Receive(w.store))
    case DoTick => w.(store := Tick(w.store))
    case DoClose => w.(store := w.store.(closed := true))
    case DoStop => w.(store := Stop(w.store))
  }

  ghost predicate IsRun<R>(run: seq<World<R>>, events: seq<Event<R>>) {
    && |run| == |events| + 1
    && run[0] == World(State([], [], [], [], [], false, false), [], map[])
    && forall i :: 0 <= i < |events| ==> Enabled(run[i], events[i]) && run[i + 1] == Next(run[i], events[i])
  }

  /** No loss, no duplication, no reordering, and the sizes. */
  ghost predicate InOrder<R>(w: World<R>) {
    && Held(w.store) == w.accepted && Flat(w.store.batches) <= w.accepted
    && |w.store.buf| < BATCH_MAX_ROWS
    && |w.store.queue| <= CHANNEL_CAPACITY
    && w.store.pendingFlush == []
    && (forall b :: b in w.store.batches ==> 1 <= |b| <= BATCH_MAX_ROWS)
    && (w.store.stopped ==> w.store.closed && w.store.queue == [] && w.store.buf == [])
  }

  /** The queued flush at `i` has exactly the records accepted before it ahead of it. */
  ghost predicate FlushInPlace<R>(w: World<R>, i: nat)
    requires i < |w.store.queue| && w.store.queue[i].Flush?
  {
    var t := w.store.queue[i].ticket;
    t in w.barrier && w.barrier[t] == |Taken(w.store)| + |Records(w.store.queue[..i])|
  }

  ghost predicate Barriers<R>(w: World<R>) {
    && (forall i :: 0 <= i < |w.store.queue| && w.store.queue[i].Flush? ==> FlushInPlace(w, i))
    && (forall t :: t in w.store.acked ==> t in w.barrier && w.barrier[t] <= |Flat(w.store.batches)|)
  }

  /** Every flush is still in the channel or has been acknowledged. */
  ghost predicate NoFlushLost<R>(w: World<R>) {
    forall t :: t in w.barrier ==> Flush(t) in w.store.queue || t in w.store.acked
  }

  lemma AppendKeeps<R>(w: World<R>, r: R)
    requires InOrder(w) && Barriers(w) && NoFlushLost(w) && Enabled(w, DoAppend(r))
    ensures var w' := Next(w, DoAppend(r)); InOrder(w') && Barriers(w') && NoFlushLost(w')
  {
    var w' := Next(w, DoAppend(r));
    if w'.store.queue != w.store.queue {
      QueueGrows(w, w', Record(r));
    }
  }

  lemma FlushKeeps<R>(w: World<R>, t: nat)
    requires InOrder(w) && Barriers(w) && NoFlushLost(w) && Enabled(w, DoFlush(t))
    ensures var w' := Next(w, DoFlush(t)); InOrder(w') && Barriers(w') && NoFlushLost(w')
  {
    var w' := Next(w, DoFlush(t));
    QueueGrows(w, w', Flush(t));
    assert Flush(t) in w'.store.queue;
  }

  /** A command at the end of the channel leaves the ones before it in place. */
  lemma QueueGrows<R>(w: World<R>, w': World<R>, c: Cmd<R>)
    requires InOrder(w) && Barriers(w) && NoFlushLost(w)
    requires w'.store == w.store.(queue := w.store.queue + [c])
    requires c.Record? ==> w' == w.(store := w'.store, accepted := w.accepted + [c.rec])
    requires c.Flush? ==>
              w' == w.(store := w'.store, barrier := w.barrier[c.ticket := |w.accepted|]) && c.ticket !in w.barrier
    ensures Held(w'.store) == w'.accepted && Barriers(w')
    ensures forall t :: t in w.barrier ==> Flush(t) in w'.store.queue || t in w'.store.acked
  {
    var q, q' := w.store.queue, w'.store.queue;
    assert q'[..|q|] == q;
    forall i | 0 <= i < |q'| && q'[i].Flush? ensures FlushInPlace(w', i) {
      if i < |q| {
        assert FlushInPlace(w, i) && q'[..i] == q[..i];
      }
    }
  }

  /** A queued flush moves up by one place and keeps as many records ahead of it as before. */
  lemma MovesUp<R>(w: World<R>, w': World<R>, i: nat)
    requires w.store.queue != [] && w'.store.queue == w.store.queue[1..] && w'.barrier == w.barrier
    requires |Taken(w'.store)| == |Taken(w.store)| + Unit(w.store.queue[0].Record?)
    requires i < |w'.store.queue| && w'.store.queue[i].Flush? && FlushInPlace(w, i + 1)
    ensures FlushInPlace(w', i)
  {
    var ahead := w.store.queue[..i + 1];
    assert ahead[0] == w.store.queue[0] && ahead[1..] == w'.store.queue[..i];
    RecordsHead(ahead);
  }

  lemma ReceiveRecordKeeps<R>(w: World<R>, w': World<R>, r: R)
    requires InOrder(w) && Barriers(w) && NoFlushLost(w) && !w.store.stopped
    requires w.store.queue != [] && w.store.queue[0] == Record(r)
    requires w' == w.(store := Push(w.store.(queue := w.store.queue[1..]), r)) && Held(w'.store) == w.accepted
    ensures InOrder(w') && Barriers(w') && NoFlushLost(w')
  {
    var rest := w.store.(queue := w.store.queue[1..]);
    PushKeepsOrder(rest, r);
    PushShape(rest, r);
    HeadLeaves(w, w');
    BatchesArePrefix(w'.store);
  }

  lemma ReceiveFlushKeeps<R>(w: World<R>, w': World<R>, t: nat)
    requires InOrder(w) && Barriers(w) && NoFlushLost(w) && !w.store.stopped
    requires w.store.queue != [] && w.store.queue[0] == Flush(t)
    requires w' == w.(store := Answer(w.store.(queue := w.store.queue[1..]), t)) && Held(w'.store) == w.accepted
    ensures InOrder(w') && Barriers(w') && NoFlushLost(w')
  {
    InsertKeepsOrder(w.store.(queue := w.store.queue[1..]));
    HeadLeaves(w, w');
    BatchesArePrefix(w'.store);
    assert FlushInPlace(w, 0);
    assert Records(w.store.queue[..0]) == [];
  }

  lemma BatchesArePrefix<R>(s: State<R>)
    ensures Flat(s.batches) <= Held(s)
  {
  }

  lemma ReceiveKeeps<R>(w: World<R>)
    requires InOrder(w) && Barriers(w) && NoFlushLost(w) && Enabled(w, DoReceive)
    ensures var w' := Next(w, DoReceive); InOrder(w') && Barriers(w') && NoFlushLost(w')
  {
    ReceiveKeepsOrder(w.store);
    match w.store.queue[0]
    case Record(r) => ReceiveRecordKeeps(w, Next(w, DoReceive), r);
    case Flush(t) => ReceiveFlushKeeps(w, Next(w, DoReceive), t);
  }

  lemma PushShape<R>(s: State<R>, r: R)
    requires s.pendingFlush == [] && |s.buf| < BATCH_MAX_ROWS
    ensures
      var s' := Push(s, r);
      && s' == s.(buf := s'.buf, batches := s'.batches) && |s'.buf| < BATCH_MAX_ROWS
      && (forall b :: b in s'.batches ==> b in s.batches || |b| == BATCH_MAX_ROWS)
  {
    assert s.acked + s.pendingFlush == s.acked;
  }

  /** The flushes still in the channel once its head has been dealt with. */
  lemma HeadLeaves<R>(w: World<R>, w': World<R>)
    requires Barriers(w) && NoFlushLost(w) && w.store.queue != []
    requires w'.store.queue == w.store.queue[1..] && w'.barrier == w.barrier
    requires |Taken(w'.store)| == |Taken(w.store)| + Unit(w.store.queue[0].Record?)
    requires w'.store.acked == w.store.acked + (if w.store.queue[0].Flush? then [w.store.queue[0].ticket] else [])
    ensures forall i :: 0 <= i < |w'.store.queue| && w'.store.queue[i].Flush? ==> FlushInPlace(w', i)
    ensures NoFlushLost(w')
  {
    forall i | 0 <= i < |w'.store.queue| && w'.store.queue[i].Flush? ensures FlushInPlace(w', i) {
      assert FlushInPlace(w, i + 1);
      MovesUp(w, w', i);
    }
    StillSomewhere(w, w');
  }

  lemma StillSomewhere<R>(w: World<R>, w': World<R>)
    requires NoFlushLost(w) && w.store.queue != [] && w'.store.queue == w.store.queue[1..] && w'.barrier == w.barrier
    requires w'.store.acked == w.store.acked + (if w.store.queue[0].Flush? then [w.store.queue[0].ticket] else [])
    ensures NoFlushLost(w')
  {
    forall t | t in w.barrier ensures Flush(t) in w'.store.queue || t in w'.store.acked {
      if Flush(t) in w.store.queue && Flush(t) != w.store.queue[0] {
        var i :| 0 <= i < |w.store.queue| && w.store.queue[i] == Flush(t);
        assert w'.store.queue[i - 1] == Flush(t);
      }
    }
  }

  lemma InsertKeeps<R>(w: World<R>, w': World<R>)
    requires InOrder(w) && Barriers(w) && NoFlushLost(w)
    requires w' == w.(store := Insert(w.store))
    ensures InOrder(w') && Barriers(w') && NoFlushLost(w') && w'.store.buf == []
  {
    InsertKeepsOrder(w.store);
    forall i | 0 <= i < |w'.store.queue| && w'.store.queue[i].Flush? ensures FlushInPlace(w', i) {
      assert FlushInPlace(w, i);
    }
  }

  lemma StepKeeps<R>(w: World<R>, e: Event<R>)
    requires InOrder(w) && Barriers(w) && NoFlushLost(w) && Enabled(w, e)
    ensures InOrder(Next(w, e)) && Barriers(Next(w, e)) && NoFlushLost(Next(w, e))
  {
    match e
    case DoAppend(r) => AppendKeeps(w, r);
    case DoFlush(t) => FlushKeeps(w, t);
    case DoReceive => ReceiveKeeps(w);
    case DoTick =>
      InsertKeeps(w, w.(store := Insert(w.store)));
      assert w.store.acked + [] == w.store.acked;
      assert Next(w, e).store == Insert(w.store);
    case DoClose => CloseKeeps(w);
    case DoStop =>
      var w' := w.(store := Insert(w.store));
      InsertKeeps(w, w');
      StopKeeps(w');
  }

  lemma CloseKeeps<R>(w: World<R>)
    requires InOrder(w) && Barriers(w) && NoFlushLost(w)
    ensures var w' := w.(store := w.store.(closed := true)); InOrder(w') && Barriers(w') && NoFlushLost(w')
  {
    var w' := w.(store := w.store.(closed := true));
    forall i | 0 <= i < |w'.store.queue| && w'.store.queue[i].Flush? ensures FlushInPlace(w', i) {
      assert FlushInPlace(w, i);
    }
  }

  lemma StopKeeps<R>(w: World<R>)
    requires InOrder(w) && Barriers(w) && NoFlushLost(w) && w.store.closed && w.store.queue == [] && w.store.buf == []
    ensures var w' := w.(store := w.store.(stopped := true)); InOrder(w') && Barriers(w') && NoFlushLost(w')
  {
  }

  lemma {:induction false} RunKeeps<R>(run: seq<World<R>>, events: seq<Event<R>>, n: nat)
    requires IsRun(run, events) && n < |run|
    ensures InOrder(run[n]) && Barriers(run[n]) && NoFlushLost(run[n])
  {
    if n > 0 {
      RunKeeps(run, events, n - 1);
      StepKeeps(run[n - 1], events[n - 1]);
    }
  }

  /** At every point of every run: batches, buffer and channel together hold exactly the accepted records in
      order, and the buffer is short of a full batch. */
  lemma NothingLost<R>(run: seq<World<R>>, events: seq<Event<R>>, n: nat)
    requires IsRun(run, events) && n < |run|
    ensures
      var s := run[n].store;
      && Flat(s.batches) + s.buf + Records(s.queue) == run[n].accepted
      && |s.buf| < BATCH_MAX_ROWS && s.pendingFlush == []
      && (s.stopped ==> Flat(s.batches) == run[n].accepted)
  {
    RunKeeps(run, events, n);
  }

  /** After a tick every record that has left the channel is in a batch. */
  lemma TickEmpties<R>(run: seq<World<R>>, events: seq<Event<R>>, i: nat)
    requires IsRun(run, events) && i < |events| && events[i].DoTick?
    ensures
      var s := run[i + 1].store;
      s.buf == [] && Flat(s.batches) + Records(s.queue) == run[i + 1].accepted == run[i].accepted
  {
    assert Enabled(run[i], events[i]) && run[i + 1] == Next(run[i], events[i]);
    NothingLost(run, events, i + 1);
    var s := run[i + 1].store;
    assert Flat(s.batches) + [] == Flat(s.batches);
  }

  /** A full buffer does not wait for a tick: the 200th record of a batch hands it over. */
  lemma FullBatchGoes<R>(s: State<R>, r: R)
    requires |s.buf| == 199
    ensures Push(s, r).buf == [] && Push(s, r).batches == s.batches + [s.buf + [r]]
  {
  }

  /** A shorter one waits. */
  lemma ShortBatchWaits<R>(s: State<R>, r: R)
    requires |s.buf| < 199
    ensures Push(s, r) == s.(buf := s.buf + [r])
  {
  }

  /** A record is dropped exactly when 4096 commands are in the channel. */
  lemma DropsExactly<R>(s: State<R>, r: R)
    requires !s.stopped
    ensures Append(s, r).1 == Dropped <==> |s.queue| >= 4096
    ensures |s.queue| < 4096 ==> Append(s, r) == (s.(queue := s.queue + [Record(r)]), Accepted)
    ensures |s.queue| >= 4096 ==> Append(s, r).0 == s
  {
  }

  /** A flush that has been acknowledged: every record accepted before it was enqueued is in a batch. */
  lemma FlushIsBarrier<R>(run: seq<World<R>>, events: seq<Event<R>>, i: nat, n: nat)
    requires IsRun(run, events) && i < n < |run| && events[i].DoFlush? && events[i].ticket in run[n].store.acked
    ensures run[i].accepted <= Flat(run[n].store.batches)
  {
    RunKeeps(run, events, n);
    HistoryGrows(run, events, i, n);
    PrefixOfSame(run[i].accepted, Flat(run[n].store.batches), run[n].accepted);
  }

  lemma PrefixOfSame<R>(a: seq<R>, b: seq<R>, whole: seq<R>)
    requires a <= whole && b <= whole && |a| <= |b|
    ensures a <= b
  {
  }

  /** Accepted records and the barrier of a flush stay as they are. */
  lemma {:induction false} HistoryGrows<R>(run: seq<World<R>>, events: seq<Event<R>>, i: nat, n: nat)
    requires IsRun(run, events) && i < n < |run|
    ensures run[i].accepted <= run[n].accepted
    ensures events[i].DoFlush? ==>
              var t := events[i].ticket; t in run[n].barrier && run[n].barrier[t] == |run[i].accepted|
  {
    assert Enabled(run[n - 1], events[n - 1]) && run[n] == Next(run[n - 1], events[n - 1]);
    if i < n - 1 {
      HistoryGrows(run, events, i, n - 1);
    }
  }

  /** Once the worker has ended, every flush that entered the channel has been acknowledged. */
  lemma StopAcksAll<R>(run: seq<World<R>>, events: seq<Event<R>>, i: nat, n: nat)
    requires IsRun(run, events) && i < n < |run| && events[i].DoFlush? && run[n].store.stopped
    ensures events[i].ticket in run[n].store.acked
  {
    RunKeeps(run, events, n);
    HistoryGrows(run, events, i, n);
  }
}
