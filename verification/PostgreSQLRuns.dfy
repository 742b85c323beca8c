/** What holds over every run of DBServer_PostgreSQL, and exactly for which settings. */
module PostgreSQLRuns {
  import opened Sequences
  import opened DbLink
  import opened PostgreSQL

  // ---- Records: order and loss.

  /** The records of all writes that the database accepted. */
  function Delivered(calls: seq<DbCall>): seq<Record> {
    if calls == [] then []
    else var n := |calls| - 1;
      Delivered(calls[..n]) + if calls[n].Copied? && calls[n].ok then calls[n].rows else []
  }

  lemma DeliveredOne(calls: seq<DbCall>, call: DbCall)
    ensures Delivered(calls + [call]) == Delivered(calls) + if call.Copied? && call.ok then call.rows else []
  {
    assert (calls + [call])[..|calls|] == calls;
  }

  lemma {:induction false} QueriesDeliverNothing(calls: seq<DbCall>, queries: seq<string>, answers: seq<bool>)
    ensures Delivered(calls + QueryCalls(queries, answers)) == Delivered(calls)
  {
    var more := QueryCalls(queries, answers);
    if queries == [] {
      assert calls + more == calls;
    } else {
      var n := |queries| - 1;
      QueriesDeliverNothing(calls, queries[..n], answers);
      assert calls + more == (calls + QueryCalls(queries[..n], answers)) + [more[n]];
      DeliveredOne(calls + QueryCalls(queries[..n], answers), more[n]);
    }
  }

  lemma QueryDeliversNothing(l: Link, q: Queue, query: string, answers: seq<bool>)
    ensures Delivered(WriteToBase(l, q, query, answers).calls) == Delivered(l.calls)
  {
    if l.connectOk {
      QueriesDeliverNothing(l.calls, l.qbuf, answers);
      DeliveredOne(l.calls + QueryCalls(l.qbuf, answers), Queried(query, Answer(answers, |l.qbuf|)));
    }
  }

  lemma LinkDeliversNothing(l: Link, q: Queue, e: Event)
    ensures Delivered(Step(l, q, e).calls) == Delivered(l.calls)
  {
    match e
    case Query(query, answers) => QueryDeliversNothing(l, q, query, answers);
    case Init(_, answers) => QueriesDeliverNothing(l.calls, l.qbuf, answers);
    case Ping(_) =>
    case Reconnect(_, _, _, answers) => QueriesDeliverNothing(l.calls, l.qbuf, answers);
  }

  /** Delivered records, then those still in the buffer. */
  function Stock(s: Pg): seq<Record> {
    Delivered(s.link.calls) + s.ibuf
  }

  ghost predicate Accounted(s: Pg) {
    && Subseq(Stock(s), s.arrived)
    && multiset(s.arrived) == multiset(Stock(s)) + multiset(s.lost)
  }

  /** Cutting one end off the buffer. */
  lemma CutKeepsOrder(done: seq<Record>, buf: seq<Record>, kept: seq<Record>, cut: seq<Record>, arrived: seq<Record>)
    requires Subseq(done + buf, arrived) && (buf == kept + cut || buf == cut + kept)
    ensures Subseq(done + kept, arrived)
  {
    if buf == kept + cut {
      SubseqCut(done + kept, cut, []);
      assert done + kept + cut + [] == done + buf;
      assert done + kept + [] == done + kept;
    } else {
      SubseqCut(done, cut, kept);
      assert done + cut + kept == done + buf;
    }
    SubseqTrans(done + kept, done + buf, arrived);
  }

  lemma CutKeepsCount(done: seq<Record>, buf: seq<Record>, kept: seq<Record>, cut: seq<Record>, lost: seq<Record>)
    requires buf == kept + cut || buf == cut + kept
    ensures multiset(done + buf) + multiset(lost) == multiset(done + kept) + multiset(lost + cut)
  {
    assert multiset(buf) == multiset(kept) + multiset(cut);
    assert multiset(done + buf) == multiset(done) + multiset(buf);
  }

  lemma OverflowAccounts(p: Params, s: Pg)
    requires ValidParams(p) && Accounted(s)
    ensures Accounted(Overflow(p, s))
  {
    var del := Del(p, s.ibufSize);
    if del <= |s.ibuf| {
      var a, b := Kept(s.ibuf, del, p.lastRemove), Erased(s.ibuf, del, p.lastRemove);
      assert s.ibuf == if p.lastRemove then b + a else a + b;
      CutKeepsOrder(Delivered(s.link.calls), s.ibuf, a, b, s.arrived);
      CutKeepsCount(Delivered(s.link.calls), s.ibuf, a, b, s.lost);
    }
  }

  lemma WriteAccounts(s: Pg, copyOk: bool)
    requires Accounted(s)
    ensures var s1 := s.(link := s.link.(calls := s.link.calls + [Copied(s.ibuf, copyOk)]));
            Accounted(if copyOk then s1.(ibuf := [], ibufSize := 0) else s1)
  {
    DeliveredOne(s.link.calls, Copied(s.ibuf, copyOk));
    var s1 := s.(link := s.link.(calls := s.link.calls + [Copied(s.ibuf, copyOk)]));
    assert Stock(if copyOk then s1.(ibuf := [], ibufSize := 0) else s1) == Stock(s);
  }

  lemma FlushAccounts(p: Params, s: Pg, copyOk: bool)
    requires ValidParams(p) && Accounted(s)
    ensures Accounted(FlushInsert(p, s, copyOk))
  {
    OverflowAccounts(p, s);
    WriteAccounts(if s.ibufSize > p.ibufMaxSize then Overflow(p, s) else s, copyOk);
  }

  lemma ArrivalAccounts(s: Pg, rec: Record)
    requires Accounted(s)
    ensures Accounted(Arrive(s, rec))
  {
    SubseqSnoc(Stock(s), s.arrived, rec);
    assert Stock(Arrive(s, rec)) == Stock(s) + [rec];
    assert multiset(s.arrived + [rec]) == multiset(s.arrived) + multiset([rec]);
    assert multiset(Stock(s) + [rec]) == multiset(Stock(s)) + multiset([rec]);
  }

  lemma LinkAccounts(s: Pg, q: Queue, e: Event)
    requires Accounted(s)
    ensures Accounted(s.(link := Step(s.link, q, e)))
  {
    LinkDeliversNothing(s.link, q, e);
  }

  lemma StepAccounts(p: Params, s: Pg, e: PgEvent)
    requires ValidParams(p) && Accounted(s)
    ensures Accounted(PgStep(p, s, e))
  {
    match e
    case Sensor(rec, copyOk) =>
      ArrivalAccounts(s, rec);
      FlushAccounts(p, Arrive(s, rec), copyOk);
    case Confirm(update, copyOk, answers) =>
      FlushAccounts(p, s, copyOk);
      LinkAccounts(FlushInsert(p, s, copyOk), p.TheQueue(), Query(update, answers));
    case FlushTimer(copyOk) => FlushAccounts(p, s, copyOk);
    case OnLink(e) => LinkAccounts(s, p.TheQueue(), e);
  }

  lemma OutsideStays(p: Params, s: Pg, e: PgEvent)
    requires ValidParams(p) && s.outside
    ensures PgStep(p, s, e).outside
  {
  }

  /** In every run that stays inside the vector the delivered records, followed by the buffered ones, are
      arrivals in their order, none twice; and every arrival is delivered, buffered, or was erased by the
      overflow branch. */
  lemma {:induction false} AccountedInEveryRun(p: Params, events: seq<PgEvent>)
    requires ValidParams(p) && !PgRun(p, events).outside
    ensures Accounted(PgRun(p, events))
  {
    if events == [] {
      SubseqRefl<Record>([]);
      assert Stock(INITIAL_PG) == [];
    } else {
      var n := |events| - 1;
      if PgRun(p, events[..n]).outside {
        OutsideStays(p, PgRun(p, events[..n]), events[n]);
      }
      AccountedInEveryRun(p, events[..n]);
      StepAccounts(p, PgRun(p, events[..n]), events[n]);
    }
  }

  /** The counter with which an event enters flushInsertBuffer, or 0 if it does not. */
  function CounterAt(s: Pg, e: PgEvent): nat {
    match e
    case Sensor(_, _) => s.ibufSize + 1
    case Confirm(_, _, _) => s.ibufSize
    case FlushTimer(_) => s.ibufSize
    case OnLink(_) => 0
  }

  /** flushInsertBuffer with this counter and these records: exactly a counter above its maximum erases
      anything, and then the delnum of the counter says how many records survive: the last ones under
      lastRemove, else the first ones. */
  ghost predicate Loses(p: Params, s: Pg, s': Pg, full: seq<Record>, counter: nat)
    requires ValidParams(p)
  {
    if counter > p.ibufMaxSize then
      var d := Del(p, counter);
      && d <= |full|
      && var i := if p.lastRemove then |full| - d else d;
         && s'.lost == s.lost + (if p.lastRemove then full[..i] else full[i..])
         && Stock(s') == Delivered(s.link.calls) + (if p.lastRemove then full[i..] else full[..i])
    else s'.lost == s.lost && Stock(s') == Delivered(s.link.calls) + full
  }

  lemma FlushErases(p: Params, s: Pg, copyOk: bool)
    requires ValidParams(p) && (s.ibufSize > p.ibufMaxSize ==> Del(p, s.ibufSize) <= |s.ibuf|)
    ensures Loses(p, s, FlushInsert(p, s, copyOk), s.ibuf, s.ibufSize)
  {
    if s.ibufSize > p.ibufMaxSize {
      CutExactly(s, Del(p, s.ibufSize), p.lastRemove);
      WrittenStock(Overflow(p, s), copyOk);
    } else {
      WrittenStock(s, copyOk);
    }
  }

  lemma RecordErases(p: Params, s: Pg, rec: Record, copyOk: bool)
    requires ValidParams(p) && FirstDel(p) <= p.ibufMaxSize + 1 && InBounds(p, s)
    ensures Loses(p, s, Added(p, s, rec, copyOk), s.ibuf + [rec], s.ibufSize + 1)
  {
    if s.ibufSize >= p.ibufMaxSize {
      KeptInside(p, s);
    }
    FlushErases(p, Arrive(s, rec), copyOk);
  }

  /** One event, in a state of a run: what it erases and what it keeps. */
  lemma LossExactly(p: Params, s: Pg, e: PgEvent)
    requires ValidParams(p) && FirstDel(p) <= p.ibufMaxSize + 1 && InBounds(p, s)
    ensures Loses(p, s, PgStep(p, s, e), if e.Sensor? then s.ibuf + [e.rec] else s.ibuf, CounterAt(s, e))
  {
    match e
    case Sensor(rec, copyOk) => RecordErases(p, s, rec, copyOk);
    case Confirm(update, copyOk, answers) =>
      FlushErases(p, s, copyOk);
      ConfirmStock(p, s, update, copyOk, answers);
    case FlushTimer(copyOk) => FlushErases(p, s, copyOk);
    case OnLink(e) => LinkStock(s, p.TheQueue(), e);
  }

  /** Queries and the connection move no record. */
  lemma LinkStock(s: Pg, q: Queue, e: Event)
    ensures Stock(s.(link := Step(s.link, q, e))) == Stock(s)
  {
    LinkDeliversNothing(s.link, q, e);
  }

  lemma ConfirmStock(p: Params, s: Pg, update: string, copyOk: bool, answers: seq<bool>)
    requires ValidParams(p)
    ensures var s1, s' := FlushInsert(p, s, copyOk), Confirmed(p, s, update, copyOk, answers);
            Stock(s') == Stock(s1) && s'.lost == s1.lost
  {
    LinkStock(FlushInsert(p, s, copyOk), p.TheQueue(), Query(update, answers));
  }

  lemma CutExactly(s: Pg, d: nat, lastRemove: bool)
    requires d <= |s.ibuf|
    ensures var s', full, i := Cut(s, d, lastRemove), s.ibuf, if lastRemove then |s.ibuf| - d else d;
            && s'.link == s.link
            && s'.lost == s.lost + (if lastRemove then full[..i] else full[i..])
            && s'.ibuf == if lastRemove then full[i..] else full[..i]
  {
  }

  lemma WrittenStock(s: Pg, copyOk: bool)
    ensures Stock(Written(s, copyOk)) == Stock(s) && Written(s, copyOk).lost == s.lost
  {
    DeliveredOne(s.link.calls, Copied(s.ibuf, copyOk));
  }

  /** If the first overflow keeps anything, the counter is above its maximum for a record only that finds
      it at its maximum, and every overflow leaves exactly d records. */
  lemma LossOnlyAtRecords(p: Params, s: Pg, e: PgEvent)
    requires ValidParams(p) && 1 <= FirstDel(p) <= p.ibufMaxSize + 1 && InBounds(p, s)
    ensures CounterAt(s, e) > p.ibufMaxSize <==> e.Sensor? && s.ibufSize == p.ibufMaxSize
    ensures CounterAt(s, e) > p.ibufMaxSize ==> Del(p, CounterAt(s, e)) == FirstDel(p)
  {
  }

  /** Both buffers over every run: the counter, its drift, and the number of records held. */
  lemma BufferBounds(p: Params, events: seq<PgEvent>)
    requires ValidParams(p) && 1 <= FirstDel(p) <= p.ibufMaxSize + 1
    ensures var s, d, m := PgRun(p, events), FirstDel(p), p.ibufMaxSize;
            && s.ibufSize <= m && |s.ibuf| - s.ibufSize in {0, 2 * d - (m + 1)}
            && (|s.ibuf| <= m || |s.ibuf| <= 2 * d - 1) && !s.outside
  {
    RunKeepsBounds(p, events);
  }

  // ---- When the buffer is written.

  /** What the write of a buffer leaves and delivers. */
  ghost predicate WrittenOut(s: Pg, s': Pg, rows: seq<Record>) {
    s'.ibuf == [] && s'.ibufSize == 0 && Delivered(s'.link.calls) == Delivered(s.link.calls) + rows
  }

  lemma LongerDiffers(calls: seq<DbCall>, rows: seq<Record>)
    ensures Delivered(calls) + rows == Delivered(calls) <==> rows == []
  {
    assert |Delivered(calls) + rows| == |Delivered(calls)| + |rows|;
  }

  lemma WriteExactly(s: Pg, copyOk: bool)
    ensures var s', tried := Written(s, copyOk), s.link.connectOk && s.ibufSize > 0;
            && s'.link.calls == s.link.calls + (if tried then [Copied(s.ibuf, copyOk)] else [])
            && (if tried && copyOk then WrittenOut(s, s', s.ibuf)
                else s'.ibuf == s.ibuf && s'.ibufSize == s.ibufSize
                     && Delivered(s'.link.calls) == Delivered(s.link.calls))
  {
    DeliveredOne(s.link.calls, Copied(s.ibuf, copyOk));
  }

  /** The flush timer, in a state of a run: it writes the whole buffer, if there is anything in it, exactly with a
      connection, a counter that is not 0 and an accepting database; otherwise the buffer stays. */
  lemma FlushTimerExactly(p: Params, s: Pg, copyOk: bool)
    requires ValidParams(p) && 1 <= FirstDel(p) <= p.ibufMaxSize + 1 && InBounds(p, s)
    ensures var s' := PgStep(p, s, FlushTimer(copyOk));
            && (WrittenOut(s, s', s.ibuf) <==> s.ibuf == [] || (s.link.connectOk && s.ibufSize > 0 && copyOk))
            && (WrittenOut(s, s', s.ibuf) || (s'.ibuf == s.ibuf && s'.ibufSize == s.ibufSize))
            && s'.link.calls == s.link.calls
                                + if s.link.connectOk && s.ibufSize > 0 then [Copied(s.ibuf, copyOk)] else []
  {
    WriteExactly(s, copyOk);
    LongerDiffers(s.link.calls, s.ibuf);
  }

  /** A confirmation is what the flush timer does and then a query, whatever the database answers. */
  lemma ConfirmIsFlushAndQuery(p: Params, s: Pg, update: string, copyOk: bool, answers: seq<bool>)
    requires ValidParams(p)
    ensures PgStep(p, s, Confirm(update, copyOk, answers))
            == PgStep(p, PgStep(p, s, FlushTimer(copyOk)), OnLink(Query(update, answers)))
  {
  }

  /** A record, in a state of a run. Below the maximum it is only buffered; one that brings the counter to the
      maximum has the whole buffer written, exactly with a connection and an accepting database. */
  lemma RecordExactly(p: Params, s: Pg, rec: Record, copyOk: bool)
    requires ValidParams(p) && 1 <= FirstDel(p) <= p.ibufMaxSize + 1 && InBounds(p, s) && s.ibufSize < p.ibufMaxSize
    ensures var s', full := PgStep(p, s, Sensor(rec, copyOk)), s.ibuf + [rec];
            if s.ibufSize + 1 < p.ibufMaxSize then
              s'.ibuf == full && s'.ibufSize == s.ibufSize + 1 && s'.link.calls == s.link.calls
            else
              && (WrittenOut(s, s', full) <==> s.link.connectOk && copyOk)
              && (WrittenOut(s, s', full) || (s'.ibuf == full && s'.ibufSize == s.ibufSize + 1))
              && s'.link.calls == s.link.calls + if s.link.connectOk then [Copied(full, copyOk)] else []
  {
    WriteExactly(Arrive(s, rec), copyOk);
  }

  lemma OverflowStep(p: Params, s: Pg, rec: Record, copyOk: bool)
    requires ValidParams(p) && 1 <= FirstDel(p) <= p.ibufMaxSize + 1 && InBounds(p, s) && s.ibufSize == p.ibufMaxSize
    ensures FirstDel(p) <= |s.ibuf| + 1
    ensures PgStep(p, s, Sensor(rec, copyOk)) == Written(Cut(Arrive(s, rec), FirstDel(p), p.lastRemove), copyOk)
  {
    KeptInside(p, s);
  }

  lemma CutWrites(s: Pg, d: nat, lastRemove: bool, copyOk: bool)
    requires 1 <= d <= |s.ibuf| && d <= s.ibufSize
    ensures var s', full := Written(Cut(s, d, lastRemove), copyOk), s.ibuf;
            var kept := if lastRemove then full[|full| - d..] else full[..d];
            && (WrittenOut(s, s', kept) <==> s.link.connectOk && copyOk && d < s.ibufSize)
            && (WrittenOut(s, s', kept) || (s'.ibuf == kept && s'.ibufSize == s.ibufSize - d))
            && s'.link.calls == s.link.calls + if s.link.connectOk && d < s.ibufSize then [Copied(kept, copyOk)] else []
  {
    CutExactly(s, d, lastRemove);
    WriteExactly(Cut(s, d, lastRemove), copyOk);
  }

  /** One that finds the counter at the maximum has the d records written that the overflow keeps, unless the
      counter is 0 then. */
  lemma OverflowWrites(p: Params, s: Pg, rec: Record, copyOk: bool)
    requires ValidParams(p) && 1 <= FirstDel(p) <= p.ibufMaxSize + 1 && InBounds(p, s) && s.ibufSize == p.ibufMaxSize
    ensures var s', full, d := PgStep(p, s, Sensor(rec, copyOk)), s.ibuf + [rec], FirstDel(p);
            && d <= |full|
            && var kept := if p.lastRemove then full[|full| - d..] else full[..d];
               && (WrittenOut(s, s', kept) <==> s.link.connectOk && copyOk && d <= p.ibufMaxSize)
               && (WrittenOut(s, s', kept) || (s'.ibuf == kept && s'.ibufSize == p.ibufMaxSize + 1 - d))
               && s'.link.calls == s.link.calls
                                   + if s.link.connectOk && d <= p.ibufMaxSize then [Copied(kept, copyOk)] else []
  {
    OverflowStep(p, s, rec, copyOk);
    CutWrites(Arrive(s, rec), FirstDel(p), p.lastRemove, copyOk);
  }

  // ---- Settings for which a property fails, by a run without a connection.

  function Fill(k: nat): seq<PgEvent> {
    seq(k, i => Sensor([], false))
  }

  lemma {:induction false} AfterFill(p: Params, k: nat)
    requires ValidParams(p) && k <= p.ibufMaxSize
    ensures var s := PgRun(p, Fill(k)); s.link == INITIAL && |s.ibuf| == k && s.ibufSize == k && !s.outside
  {
    if k > 0 {
      assert Fill(k)[..k - 1] == Fill(k - 1);
      AfterFill(p, k - 1);
    }
  }

  lemma AfterOverflow(p: Params)
    requires ValidParams(p)
    ensures var s, d, m := PgRun(p, Fill(p.ibufMaxSize + 1)), FirstDel(p), p.ibufMaxSize;
            && s.link == INITIAL && s.outside == (d > m + 1)
            && |s.ibuf| == (if d > m + 1 then m + 1 else d) && s.ibufSize == if d < m + 1 then m + 1 - d else 0
  {
    var m := p.ibufMaxSize;
    assert Fill(m + 1)[..m] == Fill(m);
    AfterFill(p, m);
  }

  /** std::prev and std::next stay inside the vector in every run exactly if the first overflow does. */
  lemma InsideExactly(p: Params)
    requires ValidParams(p)
    ensures (forall events: seq<PgEvent> :: !PgRun(p, events).outside) <==> FirstDel(p) <= p.ibufMaxSize + 1
  {
    AfterOverflow(p);
    if FirstDel(p) <= p.ibufMaxSize + 1 {
      forall events: seq<PgEvent> ensures !PgRun(p, events).outside {
        RunKeepsBounds(p, events);
      }
    }
  }

  /** The counter is the number of buffered records in every run exactly if 2d = ibufMaxSize + 1. */
  lemma CounterExactly(p: Params)
    requires ValidParams(p)
    ensures (forall events: seq<PgEvent> :: PgRun(p, events).ibufSize == |PgRun(p, events).ibuf|)
            <==> 2 * FirstDel(p) == p.ibufMaxSize + 1
  {
    AfterOverflow(p);
    if 2 * FirstDel(p) == p.ibufMaxSize + 1 {
      forall events: seq<PgEvent> ensures PgRun(p, events).ibufSize == |PgRun(p, events).ibuf| {
        RunKeepsBounds(p, events);
      }
    } else {
      var s := PgRun(p, Fill(p.ibufMaxSize + 1));
      assert s.ibufSize != |s.ibuf|;
    }
  }

  /** With the documented defaults, 2000 and 0.5, the counter drifts by one. */
  lemma DefaultDrifts(lastRemove: bool, qbufSize: nat)
    ensures var s := PgRun(Params(2000, 0.5, lastRemove, qbufSize), Fill(2001)); |s.ibuf| == 1001 && s.ibufSize == 1000
  {
    var p := Params(2000, 0.5, lastRemove, qbufSize);
    AfterOverflow(p);
    assert 2001 as real * 0.5 == 1000.5;
  }

  // ---- A confirmation and the records before it.

  /** Everything buffered is written before the queued queries, and those before the UPDATE. */
  ghost predicate ConfirmsInOrder(p: Params, s: Pg, update: string, answers: seq<bool>)
    requires ValidParams(p)
  {
    var s' := Confirmed(p, s, update, true, answers);
    var queries := QueryCalls(s.link.qbuf, answers) + [Queried(update, Answer(answers, |s.link.qbuf|))];
    s'.ibuf == [] && (s'.link.calls == s.link.calls + ([Copied(s.ibuf, true)] + queries)
                      || (s.ibuf == [] && s'.link.calls == s.link.calls + queries))
  }

  ghost predicate ConfirmSafe(p: Params)
    requires ValidParams(p)
  {
    forall events: seq<PgEvent>, update: string, answers: seq<bool> ::
      PgRun(p, events).link.connectOk ==> ConfirmsInOrder(p, PgRun(p, events), update, answers)
  }

  lemma SameEnd<T>(a: seq<T>, b: seq<T>, end: seq<T>)
    ensures a + end == b + end <==> a == b
  {
    assert a == (a + end)[..|a + end| - |end|];
    assert b == (b + end)[..|b + end| - |end|];
  }

  /** The order of a confirmation is decided by what its flush does. */
  lemma ConfirmByFlush(p: Params, s: Pg, update: string, answers: seq<bool>)
    requires ValidParams(p) && s.link.connectOk
    ensures var s1 := FlushInsert(p, s, true);
            ConfirmsInOrder(p, s, update, answers) <==>
              s1.ibuf == [] && (s1.link.calls == s.link.calls + [Copied(s.ibuf, true)]
                                || (s.ibuf == [] && s1.link.calls == s.link.calls))
  {
    var last := Queried(update, Answer(answers, |s.link.qbuf|));
    var tried := QueryCalls(s.link.qbuf, answers);
    var s1 := FlushInsert(p, s, true);
    OverflowKeepsLink(p, s);
    assert Confirmed(p, s, update, true, answers).link.calls == s1.link.calls + tried + [last];
    SameTail(s1.link.calls, s.link.calls, Copied(s.ibuf, true), tried, last);
  }

  lemma SameTail<T>(a: seq<T>, b: seq<T>, x: T, mid: seq<T>, last: T)
    ensures a + mid + [last] == b + ([x] + (mid + [last])) <==> a == b + [x]
    ensures a + mid + [last] == b + (mid + [last]) <==> a == b
  {
    assert a + mid + [last] == a + (mid + [last]);
    assert b + ([x] + (mid + [last])) == b + [x] + (mid + [last]);
    SameEnd(a, b + [x], mid + [last]);
    SameEnd(a, b, mid + [last]);
  }

  /** With an exact or drifted counter the flush writes everything unless the counter is 0 too early ... */
  lemma ConfirmWithin(p: Params, s: Pg, update: string, answers: seq<bool>)
    requires ValidParams(p) && s.link.connectOk && s.ibufSize <= p.ibufMaxSize
    ensures ConfirmsInOrder(p, s, update, answers) <==> s.ibufSize > 0 || s.ibuf == []
  {
    ConfirmByFlush(p, s, update, answers);
    var s1 := FlushInsert(p, s, true);
    assert s.ibufSize > 0 ==> s1.link.calls == s.link.calls + [Copied(s.ibuf, true)];
  }

  /** ... and a counter that ran away makes it erase what is there. */
  lemma ConfirmBeyond(p: Params, s: Pg, update: string, answers: seq<bool>)
    requires ValidParams(p) && s.link.connectOk && s.ibufSize > p.ibufMaxSize && Del(p, s.ibufSize) == 0
    ensures ConfirmsInOrder(p, s, update, answers) <==> s.ibuf == []
  {
    ConfirmByFlush(p, s, update, answers);
    var s1 := FlushInsert(p, s, true);
    var n := |s.link.calls|;
    assert Overflow(p, s).ibuf == [];
    assert s1.link.calls == s.link.calls + [Copied([], true)];
    assert s1.link.calls[n] == Copied([], true) && (s.link.calls + [Copied(s.ibuf, true)])[n] == Copied(s.ibuf, true);
  }

  ghost predicate NothingBeyond(p: Params, s: Pg) {
    s.ibufSize > p.ibufMaxSize ==> s.ibuf == []
  }

  lemma ZeroFlush(p: Params, s: Pg, copyOk: bool)
    requires p.ibufOverflowCleanFactor == 0.0
    ensures NothingBeyond(p, FlushInsert(p, s, copyOk))
  {
    ZeroDel(p, s.ibufSize);
    assert Overflow(p, s).ibuf == [];
  }

  lemma ZeroDel(p: Params, n: nat)
    requires p.ibufOverflowCleanFactor == 0.0
    ensures Del(p, n) == 0
  {
    assert n as real * 0.0 == 0.0;
  }

  lemma {:induction false} ZeroFactor(p: Params, events: seq<PgEvent>)
    requires p.ibufOverflowCleanFactor == 0.0
    ensures NothingBeyond(p, PgRun(p, events))
  {
    if events != [] {
      var n := |events| - 1;
      var s := PgRun(p, events[..n]);
      ZeroFactor(p, events[..n]);
      match events[n]
      case Sensor(rec, copyOk) => ZeroFlush(p, Arrive(s, rec), copyOk);
      case Confirm(_, copyOk, _) => ZeroFlush(p, s, copyOk);
      case FlushTimer(copyOk) => ZeroFlush(p, s, copyOk);
      case OnLink(_) =>
    }
  }

  /** The first counter value for which anything is kept. */
  lemma {:induction false} FirstKept(p: Params, n: nat) returns (k: nat)
    requires ValidParams(p) && Del(p, n) > 0
    ensures k <= n && Del(p, k) > 0 && forall i | 0 <= i < k :: Del(p, i) == 0
    decreases n
  {
    if i :| 0 <= i < n && Del(p, i) > 0 {
      k := FirstKept(p, i);
    } else {
      k := n;
    }
  }

  lemma TimesLess(a: real, b: real, f: real)
    requires a < b && f > 0.0
    ensures a * f < b * f
  {
    assert b * f - a * f == (b - a) * f;
  }

  lemma SomethingKept(p: Params) returns (n: nat)
    requires p.ibufOverflowCleanFactor > 0.0
    ensures Del(p, n) > 0
  {
    var f := p.ibufOverflowCleanFactor;
    var q := 0.5 / f;
    n := q.Floor + 1;
    assert q * f == 0.5;
    TimesLess(q, n as real, f);
    var x := n as real * f;
    assert x + 0.5 > 1.0;
    assert (x + 0.5).Floor >= 1;
    assert Del(p, n) == Lround(x);
  }

  lemma {:induction false} FillBeyond(p: Params, k: nat, n: nat)
    requires ValidParams(p) && p.ibufMaxSize < k < n && forall i | 0 <= i < n :: Del(p, i) == 0
    ensures var s := PgRun(p, Fill(k)); s.link == INITIAL && s.ibuf == [] && s.ibufSize == k
    decreases k
  {
    assert Fill(k)[..k - 1] == Fill(k - 1);
    if k == p.ibufMaxSize + 1 {
      AfterOverflow(p);
    } else {
      FillBeyond(p, k - 1, n);
      GrowBeyond(p, PgRun(p, Fill(k - 1)));
    }
  }

  lemma GrowBeyond(p: Params, s: Pg)
    requires ValidParams(p) && s.ibufSize > p.ibufMaxSize && s.ibuf == [] && !s.link.connectOk
             && Del(p, s.ibufSize + 1) == 0
    ensures var s' := Added(p, s, [], false); s'.link == s.link && s'.ibuf == [] && s'.ibufSize == s.ibufSize + 1
  {
    assert Overflow(p, Arrive(s, [])).ibuf == [];
  }

  lemma Reconnected(p: Params, events: seq<PgEvent>)
    requires ValidParams(p) && PgRun(p, events).link == INITIAL
    ensures var s, s' := PgRun(p, events), PgRun(p, events + [OnLink(Init(true, []))]);
            s'.link.connectOk && s'.ibuf == s.ibuf && s'.ibufSize == s.ibufSize
  {
    assert (events + [OnLink(Init(true, []))])[..|events|] == events;
  }

  /** Every confirmation of every run finds its records in the database, while connected and with an
      accepting database, exactly for 1 <= d <= ibufMaxSize or the factor 0. */
  lemma ConfirmExactly(p: Params)
    requires ValidParams(p)
    ensures ConfirmSafe(p) <==> 1 <= FirstDel(p) <= p.ibufMaxSize || p.ibufOverflowCleanFactor == 0.0
  {
    var d, m := FirstDel(p), p.ibufMaxSize;
    if 1 <= d <= m || p.ibufOverflowCleanFactor == 0.0 {
      forall events: seq<PgEvent>, update: string, answers: seq<bool> | PgRun(p, events).link.connectOk
        ensures ConfirmsInOrder(p, PgRun(p, events), update, answers)
      {
        if 1 <= d <= m {
          ConfirmGood(p, events, update, answers);
        } else {
          ConfirmZero(p, events, update, answers);
        }
      }
    } else if d > m {
      var events := Fill(m + 1);
      AfterOverflow(p);
      Reconnected(p, events);
      ConfirmWithin(p, PgRun(p, events + [OnLink(Init(true, []))]), "", []);
    } else {
      var n := SomethingKept(p);
      n := FirstKept(p, n);
      TinyFactorLoses(p, n);
    }
  }

  lemma ConfirmGood(p: Params, events: seq<PgEvent>, update: string, answers: seq<bool>)
    requires ValidParams(p) && 1 <= FirstDel(p) <= p.ibufMaxSize && PgRun(p, events).link.connectOk
    ensures ConfirmsInOrder(p, PgRun(p, events), update, answers)
  {
    RunKeepsBounds(p, events);
    ConfirmWithin(p, PgRun(p, events), update, answers);
  }

  lemma ConfirmZero(p: Params, events: seq<PgEvent>, update: string, answers: seq<bool>)
    requires p.ibufOverflowCleanFactor == 0.0 && PgRun(p, events).link.connectOk
    ensures ConfirmsInOrder(p, PgRun(p, events), update, answers)
  {
    var s := PgRun(p, events);
    ZeroDel(p, p.ibufMaxSize + 1);
    ZeroDel(p, s.ibufSize);
    ZeroFactor(p, events);
    RunKeepsBounds(p, events);
    if s.ibufSize <= p.ibufMaxSize {
      ConfirmWithin(p, s, update, answers);
    } else {
      ConfirmBeyond(p, s, update, answers);
    }
  }

  lemma KeptBeyond(p: Params, s: Pg)
    requires ValidParams(p) && s.ibufSize > p.ibufMaxSize && s.ibuf == [] && !s.link.connectOk
    requires Del(p, s.ibufSize + 1) == 1
    ensures var s' := Added(p, s, [], false); s'.link == s.link && |s'.ibuf| == 1 && s'.ibufSize == s.ibufSize
  {
    var s1 := Arrive(s, []);
    assert Overflow(p, s1) == Cut(s1, 1, p.lastRemove);
  }

  lemma TinyBeyond(p: Params, n: nat)
    requires ValidParams(p) && FirstDel(p) == 0 && Del(p, n) > 0
    ensures n > p.ibufMaxSize + 1
  {
    if n <= p.ibufMaxSize + 1 {
      DelBelow(p, n);
    }
  }

  /** With a factor this small the first record that is kept meets a counter far beyond its maximum. */
  lemma TinyFill(p: Params, n: nat)
    requires ValidParams(p) && FirstDel(p) == 0 && Del(p, n) > 0 && forall i | 0 <= i < n :: Del(p, i) == 0
    ensures n > p.ibufMaxSize + 1
    ensures var s := PgRun(p, Fill(n)); s.link == INITIAL && |s.ibuf| == 1 && s.ibufSize == n - 1
  {
    TinyBeyond(p, n);
    FillBeyond(p, n - 1, n);
    DelOneMore(p, n - 1);
    KeptBeyond(p, PgRun(p, Fill(n - 1)));
    assert Fill(n)[..n - 1] == Fill(n - 1);
  }

  lemma TinyFactorLoses(p: Params, n: nat)
    requires ValidParams(p) && FirstDel(p) == 0 && Del(p, n) > 0 && forall i | 0 <= i < n :: Del(p, i) == 0
    ensures !ConfirmSafe(p)
  {
    TinyFill(p, n);
    Reconnected(p, Fill(n));
    ConfirmBeyond(p, PgRun(p, Fill(n) + [OnLink(Init(true, []))]), "", []);
  }

  // ---- Queries and the connection, with the insert buffer's writes in between.

  lemma SameLine(l: Link, l': Link, q: Queue)
    requires Ordered(l, q) && Attempted(l'.calls) == Attempted(l.calls)
    requires l'.qbuf == l.qbuf && l'.submitted == l.submitted && l'.dropped == l.dropped
    ensures Ordered(l', q)
  {
    assert Line(l') == Line(l);
  }

  lemma WriteKeepsQueries(s: Pg, copyOk: bool)
    ensures var l, l' := s.link, Written(s, copyOk).link;
            && l'.qbuf == l.qbuf && l'.submitted == l.submitted && l'.dropped == l.dropped
            && Attempted(l'.calls) == Attempted(l.calls)
  {
    AttemptedOne(s.link.calls, Copied(s.ibuf, copyOk));
    assert Attempted(s.link.calls) + [] == Attempted(s.link.calls);
  }

  lemma OverflowKeepsLink(p: Params, s: Pg)
    requires ValidParams(p)
    ensures Overflow(p, s).link == s.link
  {
  }

  lemma FlushKeepsOrdered(p: Params, s: Pg, copyOk: bool)
    requires ValidParams(p) && Ordered(s.link, p.TheQueue())
    ensures Ordered(FlushInsert(p, s, copyOk).link, p.TheQueue())
  {
    OverflowKeepsLink(p, s);
    WriteKeepsQueries(if s.ibufSize > p.ibufMaxSize then Overflow(p, s) else s, copyOk);
    SameLine(s.link, FlushInsert(p, s, copyOk).link, p.TheQueue());
  }

  lemma ConfirmKeepsOrdered(p: Params, s: Pg, update: string, copyOk: bool, answers: seq<bool>)
    requires ValidParams(p) && Ordered(s.link, p.TheQueue())
    ensures Ordered(Confirmed(p, s, update, copyOk, answers).link, p.TheQueue())
  {
    FlushKeepsOrdered(p, s, copyOk);
    QueryKeepsOrder(FlushInsert(p, s, copyOk).link, p.TheQueue(), update, answers);
  }

  /** Queries tried and queued are submitted queries in their order, in every run of the server. */
  lemma {:induction false} PgOrderInEveryRun(p: Params, events: seq<PgEvent>)
    requires ValidParams(p)
    ensures Ordered(PgRun(p, events).link, p.TheQueue())
  {
    if events == [] {
      OrderInEveryRun(p.TheQueue(), []);
    } else {
      var n := |events| - 1;
      var s := PgRun(p, events[..n]);
      PgOrderInEveryRun(p, events[..n]);
      match events[n]
      case Sensor(rec, copyOk) => FlushKeepsOrdered(p, Arrive(s, rec), copyOk);
      case Confirm(update, copyOk, answers) => ConfirmKeepsOrdered(p, s, update, copyOk, answers);
      case FlushTimer(copyOk) => FlushKeepsOrdered(p, s, copyOk);
      case OnLink(e) => StepKeepsOrder(s.link, p.TheQueue(), e);
    }
  }

  /** The queries submitted in a run, the UPDATEs of confirmations among them. */
  function PgSubs(events: seq<PgEvent>): seq<string> {
    if events == [] then [] else var n := |events| - 1; PgSubs(events[..n]) + SubOf(events[n])
  }

  function SubOf(e: PgEvent): seq<string> {
    match e
    case Confirm(update, _, _) => [update]
    case OnLink(Query(query, _)) => [query]
    case _ => []
  }

  /** From the end of `before` on there is no connection at any point of `during`. */
  ghost predicate PgOutage(p: Params, before: seq<PgEvent>, during: seq<PgEvent>)
    requires ValidParams(p)
    decreases |during|
  {
    !PgRun(p, before + during).link.connectOk && (during == [] || PgOutage(p, before, during[..|during| - 1]))
  }

  /** One event of an outage: to the queue it is a submission or nothing. */
  lemma PgOutageStep(p: Params, s: Pg, e: PgEvent)
    requires ValidParams(p) && !s.link.connectOk && !PgStep(p, s, e).link.connectOk
    ensures var l, l' := s.link, PgStep(p, s, e).link;
            match e
            case Confirm(update, _, _) => l' == Enqueue(l.(submitted := l.submitted + [update]), p.TheQueue(), update)
            case OnLink(Query(query, _)) => l' == Enqueue(l.(submitted := l.submitted + [query]), p.TheQueue(), query)
            case _ => l'.qbuf == l.qbuf && l'.calls == l.calls && l'.submitted == l.submitted && l'.dropped == l.dropped
  {
    if e.OnLink? {
      OutageStep(s.link, p.TheQueue(), e.e);
    }
  }

  lemma PgQueuedOneMore(p: Params, l: Link, s: Pg, subs: seq<string>, e: PgEvent)
    requires ValidParams(p) && !s.link.connectOk && !PgStep(p, s, e).link.connectOk
             && Queued(l, s.link, subs, p.qbufSize)
    ensures Queued(l, PgStep(p, s, e).link, subs + SubOf(e), p.qbufSize)
  {
    PgOutageStep(p, s, e);
    if SubOf(e) != [] {
      QueuedOneMore(l, s.link, p.TheQueue(), subs, SubOf(e)[0]);
    } else {
      assert subs + [] == subs;
    }
  }

  lemma PgRunSnoc(p: Params, events: seq<PgEvent>, e: PgEvent)
    requires ValidParams(p)
    ensures PgRun(p, events + [e]) == PgStep(p, PgRun(p, events), e)
  {
    assert (events + [e])[..|events|] == events;
  }

  lemma SubsSnoc(before: seq<PgEvent>, during: seq<PgEvent>, e: PgEvent)
    ensures before + (during + [e]) == (before + during) + [e]
    ensures PgSubs(during + [e]) == PgSubs(during) + SubOf(e)
  {
    assert (during + [e])[..|during|] == during;
  }

  lemma PgQueueStep(p: Params, before: seq<PgEvent>, during: seq<PgEvent>, e: PgEvent)
    requires ValidParams(p)
    requires !PgRun(p, before + during).link.connectOk && !PgRun(p, before + (during + [e])).link.connectOk
    requires Queued(PgRun(p, before).link, PgRun(p, before + during).link, PgSubs(during), p.qbufSize)
    ensures Queued(PgRun(p, before).link, PgRun(p, before + (during + [e])).link, PgSubs(during + [e]), p.qbufSize)
  {
    SubsSnoc(before, during, e);
    PgRunSnoc(p, before + during, e);
    PgQueuedOneMore(p, PgRun(p, before).link, PgRun(p, before + during), PgSubs(during), e);
  }

  /** In an outage of the server, under either setting of lastRemove, nothing reaches the database, and the
      queue is the last qbufSize of what it held and what was submitted since, whatever happens to records. */
  lemma {:induction false} PgQueueWhileDisconnected(p: Params, before: seq<PgEvent>, during: seq<PgEvent>)
    requires ValidParams(p) && PgOutage(p, before, during)
    ensures Queued(PgRun(p, before).link, PgRun(p, before + during).link, PgSubs(during), p.qbufSize)
    decreases |during|
  {
    if during == [] {
      assert before + during == before;
      PgOrderInEveryRun(p, before);
      QueuedNothing(PgRun(p, before).link, p.qbufSize);
    } else {
      var n := |during| - 1;
      PgQueueWhileDisconnected(p, before, during[..n]);
      assert during == during[..n] + [during[n]];
      PgQueueStep(p, before, during[..n], during[n]);
    }
  }

  /** A connection that comes about tries every queued query, in every state of the server. */
  lemma PgConnectTries(p: Params, s: Pg, e: Event)
    requires ValidParams(p) && !s.link.connectOk && PgStep(p, s, OnLink(e)).link.connectOk
    requires e.Init? || (e.Reconnect? && !e.isConnection)
    ensures var l, l' := s.link, PgStep(p, s, OnLink(e)).link;
            && l'.qbuf == [] && TriedInOrder(l.calls, l'.calls, l.qbuf, e.answers)
            && Attempted(l'.calls) == Attempted(l.calls) + l.qbuf && l'.dropped == l.dropped
  {
    ConnectTries(s.link, p.TheQueue(), e);
  }

  ghost predicate PgInTime(p: Params, events: seq<PgEvent>)
    requires ValidParams(p)
  {
    events == [] || var n := |events| - 1;
      PgInTime(p, events[..n]) && (events[n].OnLink? ==> InTime(PgRun(p, events[..n]).link, events[n].e))
  }

  ghost predicate PgStarted(events: seq<PgEvent>) {
    events != [] && var n := |events| - 1; PgStarted(events[..n]) || (events[n].OnLink? && events[n].e.Init?)
  }

  /** From the first initDBServer on exactly one of the two connection timers runs, Ping exactly while connected. */
  lemma {:induction false} PgMachineInEveryRun(p: Params, events: seq<PgEvent>)
    requires ValidParams(p) && PgInTime(p, events)
    ensures var l := PgRun(p, events).link;
            if PgStarted(events) then Machine(l) else !l.connectOk && !l.pingArmed && !l.reconnectArmed
  {
    if events != [] {
      var n := |events| - 1;
      PgMachineInEveryRun(p, events[..n]);
      if !events[n].OnLink? {
        StepTiming(p, PgRun(p, events[..n]), events[n]);
      }
    }
  }

  lemma WriteToBaseTiming(l: Link, q: Queue, query: string, answers: seq<bool>)
    ensures var l' := WriteToBase(l, q, query, answers);
            l'.connectOk == l.connectOk && l'.pingArmed == l.pingArmed && l'.reconnectArmed == l.reconnectArmed
  {
  }

  ghost predicate SameTiming(l: Link, l': Link) {
    l'.connectOk == l.connectOk && l'.pingArmed == l.pingArmed && l'.reconnectArmed == l.reconnectArmed
  }

  lemma FlushTiming(p: Params, s: Pg, copyOk: bool)
    requires ValidParams(p)
    ensures SameTiming(s.link, FlushInsert(p, s, copyOk).link)
  {
    OverflowKeepsLink(p, s);
  }

  lemma StepTiming(p: Params, s: Pg, e: PgEvent)
    requires ValidParams(p) && !e.OnLink?
    ensures SameTiming(s.link, PgStep(p, s, e).link)
  {
    match e
    case Sensor(rec, copyOk) => FlushTiming(p, Arrive(s, rec), copyOk);
    case Confirm(update, copyOk, answers) =>
      FlushTiming(p, s, copyOk);
      WriteToBaseTiming(FlushInsert(p, s, copyOk).link, p.TheQueue(), update, answers);
    case FlushTimer(copyOk) => FlushTiming(p, s, copyOk);
  }

  lemma PgIdleStep(p: Params, s: Pg, e: PgEvent)
    requires ValidParams(p) && Idle(s.link)
    ensures Idle(PgStep(p, s, e).link) <==> !(e.OnLink? && Restores(s.link, e.e) && s.link.qbuf != [])
  {
    match e
    case Sensor(rec, copyOk) => FlushKeepsQueue(p, Arrive(s, rec), copyOk);
    case Confirm(update, copyOk, answers) =>
      FlushKeepsQueue(p, s, copyOk);
      IdleStep(FlushInsert(p, s, copyOk).link, p.TheQueue(), Query(update, answers));
    case FlushTimer(copyOk) => FlushKeepsQueue(p, s, copyOk);
    case OnLink(e) => IdleStep(s.link, p.TheQueue(), e);
  }

  lemma FlushKeepsQueue(p: Params, s: Pg, copyOk: bool)
    requires ValidParams(p)
    ensures FlushInsert(p, s, copyOk).link.qbuf == s.link.qbuf && SameTiming(s.link, FlushInsert(p, s, copyOk).link)
  {
    OverflowKeepsLink(p, s);
  }

  ghost predicate PgIdleThroughout(p: Params, events: seq<PgEvent>)
    requires ValidParams(p)
  {
    Idle(PgRun(p, events).link) && (events == [] || PgIdleThroughout(p, events[..|events| - 1]))
  }

  ghost predicate PgNeverRestoresQueue(p: Params, events: seq<PgEvent>)
    requires ValidParams(p)
  {
    events == [] ||
      var n := |events| - 1;
      var l := PgRun(p, events[..n]).link;
      PgNeverRestoresQueue(p, events[..n]) && !(events[n].OnLink? && Restores(l, events[n].e) && l.qbuf != [])
  }

  /** In every run of the server no query ever waits while connected, exactly if no ping restores the
      connection while queries wait. */
  lemma {:induction false} PgIdleInEveryRun(p: Params, events: seq<PgEvent>)
    requires ValidParams(p)
    ensures PgIdleThroughout(p, events) <==> PgNeverRestoresQueue(p, events)
  {
    if events != [] {
      var n := |events| - 1;
      PgIdleInEveryRun(p, events[..n]);
      if PgIdleThroughout(p, events[..n]) {
        PgIdleAtEnd(p, events[..n]);
        PgIdleStep(p, PgRun(p, events[..n]), events[n]);
      }
    }
  }

  lemma PgIdleAtEnd(p: Params, events: seq<PgEvent>)
    requires ValidParams(p) && PgIdleThroughout(p, events)
    ensures Idle(PgRun(p, events).link)
  {
  }
}
