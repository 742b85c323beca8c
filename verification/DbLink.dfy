/** The part DBServer_PostgreSQL and DBServer_MySQL have in common: the queue of queries that wait for
    the database, and the connection with its two timers. The database's answers are inputs. */
module DbLink {
  import opened Sequences

  type Record = seq<string>

  /** What the database is asked to do, and whether it did it. */
  datatype DbCall = Copied(rows: seq<Record>, ok: bool) | Queried(query: string, ok: bool)

  /** The settings bufferSize and bufferLastRemove. */
  datatype Queue = Queue(size: nat, lastRemove: bool)

  /** `dropped` are the queries that left the queue for lack of room, `reported` those the log calls lost. */
  datatype Link = Link(connectOk: bool, pingArmed: bool, reconnectArmed: bool, qbuf: seq<string>,
                       calls: seq<DbCall>, submitted: seq<string>, dropped: seq<string>, reported: seq<string>)

  const INITIAL := Link(false, false, false, [], [], [], [], [])

  /** The answer to the i-th query of a call; no answer is a failure. */
  predicate Answer(answers: seq<bool>, i: nat) {
    i < |answers| && answers[i]
  }

  function QueryCalls(queries: seq<string>, answers: seq<bool>): seq<DbCall> {
    seq(|queries|, i requires 0 <= i < |queries| => Queried(queries[i], Answer(answers, i)))
  }

  /** flushBuffer: every queued query is tried once, oldest first, and leaves the queue. */
  function FlushBuffer(l: Link, answers: seq<bool>): Link {
    l.(qbuf := [], calls := l.calls + QueryCalls(l.qbuf, answers))
  }

  /** The push of writeToBase, and its pop when there is one query too many: the setting chooses the query
      that the log calls lost, the pop takes the oldest. */
  function Enqueue(l: Link, q: Queue, query: string): Link {
    var buf := l.qbuf + [query];
    if |buf| <= q.size then l.(qbuf := buf)
    else l.(qbuf := buf[1..], dropped := l.dropped + [buf[0]],
            reported := l.reported + [if q.lastRemove then query else buf[0]])
  }

  /** writeToBase: queued without a connection, otherwise tried behind everything queued. */
  function WriteToBase(l: Link, q: Queue, query: string, answers: seq<bool>): Link {
    var l1 := l.(submitted := l.submitted + [query]);
    if !l.connectOk then Enqueue(l1, q, query)
    else
      var l2 := FlushBuffer(l1, answers);
      l2.(calls := l2.calls + [Queried(query, Answer(answers, |l.qbuf|))])
  }

  /** initDBServer, from the test of connect_ok on. */
  function InitDBServer(l: Link, connected: bool, answers: seq<bool>): Link {
    if l.connectOk then l
    else if !connected then l.(reconnectArmed := true)
    else FlushBuffer(l.(connectOk := true, reconnectArmed := false, pingArmed := true), answers)
  }

  function PingTimer(l: Link, pingOk: bool): Link {
    if pingOk then l.(connectOk := true) else l.(connectOk := false, pingArmed := false, reconnectArmed := true)
  }

  function ReconnectTimer(l: Link, isConnection: bool, pingOk: bool, connected: bool, answers: seq<bool>): Link {
    if !isConnection then InitDBServer(l, connected, answers)
    else if pingOk then l.(connectOk := true, reconnectArmed := false, pingArmed := true)
    else l.(connectOk := false)
  }

  datatype Event = Query(query: string, answers: seq<bool>)
                 | Init(connected: bool, answers: seq<bool>)
                 | Ping(pingOk: bool)
                 | Reconnect(isConnection: bool, pingOk: bool, connected: bool, answers: seq<bool>)

  function Step(l: Link, q: Queue, e: Event): Link {
    match e
    case Query(query, answers) => WriteToBase(l, q, query, answers)
    case Init(connected, answers) => InitDBServer(l, connected, answers)
    case Ping(pingOk) => PingTimer(l, pingOk)
    case Reconnect(isConnection, pingOk, connected, answers) =>
      ReconnectTimer(l, isConnection, pingOk, connected, answers)
  }

  function Run(l: Link, q: Queue, events: seq<Event>): Link {
    if events == [] then l else var n := |events| - 1; Step(Run(l, q, events[..n]), q, events[n])
  }

  // ---- The connection machine.

  /** Exactly one of the two timers runs, and it is Ping exactly while connected. */
  ghost predicate Machine(l: Link) {
    l.connectOk == l.pingArmed && l.pingArmed != l.reconnectArmed
  }

  /** A timer message is handled only while its timer is armed. */
  ghost predicate InTime(l: Link, e: Event) {
    (e.Ping? ==> l.pingArmed) && (e.Reconnect? ==> l.reconnectArmed)
  }

  ghost predicate RunInTime(l: Link, q: Queue, events: seq<Event>) {
    events == [] || var n := |events| - 1; RunInTime(l, q, events[..n]) && InTime(Run(l, q, events[..n]), events[n])
  }

  ghost predicate Started(events: seq<Event>) {
    exists n :: 0 <= n < |events| && events[n].Init?
  }

  /** From the first initDBServer on the machine invariant holds for ever, before it no timer runs. */
  lemma {:induction false} MachineInEveryRun(q: Queue, events: seq<Event>)
    requires RunInTime(INITIAL, q, events)
    ensures var l := Run(INITIAL, q, events);
            if Started(events) then Machine(l) else !l.connectOk && !l.pingArmed && !l.reconnectArmed
  {
    if events != [] {
      var n := |events| - 1;
      MachineInEveryRun(q, events[..n]);
      assert events == events[..n] + [events[n]];
      assert Started(events) <==> Started(events[..n]) || events[n].Init?;
    }
  }

  /** A message that breaks the machine: a late ping that succeeds, or a late reconnect whose ping fails. */
  predicate Breaks(l: Link, e: Event) {
    (e.Ping? && e.pingOk && !l.connectOk) || (e.Reconnect? && e.isConnection && !e.pingOk && l.connectOk)
  }

  /** A late timer message breaks the machine in exactly two cases: a late ping that succeeds while
      reconnecting, and a late reconnect whose ping fails while connected. */
  lemma LateTimers(l: Link, q: Queue, e: Event)
    requires Machine(l)
    ensures Machine(Step(l, q, e)) <==> !Breaks(l, e)
  {
    if e.Init? {
      assert Machine(Step(l, q, e));
    }
  }

  /** The machine holds at every point of a run, and no event of the run is one of the two. */
  ghost predicate MachineThroughout(l: Link, q: Queue, events: seq<Event>) {
    Machine(Run(l, q, events)) && (events == [] || MachineThroughout(l, q, events[..|events| - 1]))
  }

  ghost predicate NeverBreaks(l: Link, q: Queue, events: seq<Event>) {
    events == [] || var n := |events| - 1; NeverBreaks(l, q, events[..n]) && !Breaks(Run(l, q, events[..n]), events[n])
  }

  /** From a state of the machine, whatever timer messages come: it holds throughout exactly if neither of
      the two cases ever occurs. */
  lemma {:induction false} LateTimersInEveryRun(l: Link, q: Queue, events: seq<Event>)
    requires Machine(l)
    ensures MachineThroughout(l, q, events) <==> NeverBreaks(l, q, events)
  {
    if events != [] {
      var n := |events| - 1;
      LateTimersInEveryRun(l, q, events[..n]);
      if MachineThroughout(l, q, events[..n]) {
        MachineAtEnd(l, q, events[..n]);
        LateTimers(Run(l, q, events[..n]), q, events[n]);
      }
    }
  }

  lemma MachineAtEnd(l: Link, q: Queue, events: seq<Event>)
    requires MachineThroughout(l, q, events)
    ensures Machine(Run(l, q, events))
  {
  }

  lemma RunSnoc(l: Link, q: Queue, events: seq<Event>, e: Event)
    ensures Run(l, q, events + [e]) == Step(Run(l, q, events), q, e)
  {
    assert (events + [e])[..|events|] == events;
  }

  /** Both cases occur: two messages of one timer, of which the first one cancels the timer too late. */
  lemma LateTimersOccur(q: Queue)
    ensures !Machine(Run(INITIAL, q, [Init(true, []), Ping(false)] + [Ping(true)]))
    ensures !Machine(Run(INITIAL, q, [Init(false, []), Reconnect(true, true, true, [])]
                                     + [Reconnect(true, false, true, [])]))
  {
    RunSnoc(INITIAL, q, [Init(true, []), Ping(false)], Ping(true));
    RunSnoc(INITIAL, q, [Init(false, []), Reconnect(true, true, true, [])], Reconnect(true, false, true, []));
  }

  // ---- The order of queries.

  /** The queries the database was asked to run, in order. */
  function Attempted(calls: seq<DbCall>): seq<string> {
    if calls == [] then []
    else var n := |calls| - 1;
      Attempted(calls[..n]) + if calls[n].Queried? then [calls[n].query] else []
  }

  lemma {:induction false} AttemptedMore(calls: seq<DbCall>, queries: seq<string>, answers: seq<bool>)
    ensures Attempted(calls + QueryCalls(queries, answers)) == Attempted(calls) + queries
  {
    var more := QueryCalls(queries, answers);
    if queries == [] {
      assert calls + more == calls;
    } else {
      var n := |queries| - 1;
      AttemptedMore(calls, queries[..n], answers);
      assert (calls + more)[..|calls| + n] == calls + QueryCalls(queries[..n], answers);
      assert queries == queries[..n] + [queries[n]];
    }
  }

  lemma AttemptedOne(calls: seq<DbCall>, call: DbCall)
    ensures Attempted(calls + [call]) == Attempted(calls) + if call.Queried? then [call.query] else []
  {
    assert (calls + [call])[..|calls|] == calls;
  }

  /** Everything tried, followed by everything queued. */
  function Line(l: Link): seq<string> {
    Attempted(l.calls) + l.qbuf
  }

  /** Queries tried and queued are submitted ones in their order; any other one was dropped. */
  ghost predicate Ordered(l: Link, q: Queue) {
    && |l.qbuf| <= q.size && Subseq(Line(l), l.submitted)
    && multiset(l.submitted) == multiset(Line(l)) + multiset(l.dropped)
  }

  lemma FlushKeepsLine(l: Link, answers: seq<bool>)
    ensures Line(FlushBuffer(l, answers)) == Line(l)
  {
    AttemptedMore(l.calls, l.qbuf, answers);
  }

  /** The queries of a state with one query more at the end of the queue, and the oldest one gone. */
  function CutLine(l: Link, query: string): seq<string> {
    Attempted(l.calls) + (l.qbuf + [query])[1..]
  }

  lemma WriteToBaseLine(l: Link, q: Queue, query: string, answers: seq<bool>)
    ensures var l' := WriteToBase(l, q, query, answers);
            && l'.submitted == l.submitted + [query]
            && if l.connectOk || |l.qbuf| < q.size then Line(l') == Line(l) + [query] && l'.dropped == l.dropped
               else Line(l') == CutLine(l, query) && l'.dropped == l.dropped + [(l.qbuf + [query])[0]]
  {
    if l.connectOk {
      var l2 := FlushBuffer(l, answers);
      FlushKeepsLine(l, answers);
      AttemptedOne(l2.calls, Queried(query, Answer(answers, |l.qbuf|)));
    } else if |l.qbuf| < q.size {
      assert Attempted(l.calls) + (l.qbuf + [query]) == Line(l) + [query];
    }
  }

  /** Taking the oldest query from the queue. */
  lemma CutKeepsOrder(l: Link, query: string)
    requires Subseq(Line(l), l.submitted)
    ensures Subseq(CutLine(l, query), l.submitted + [query])
  {
    var done, buf := Attempted(l.calls), l.qbuf + [query];
    SubseqSnoc(Line(l), l.submitted, query);
    assert done + buf == Line(l) + [query];
    assert buf == buf[..1] + buf[1..];
    assert done + buf[..1] + buf[1..] == done + buf;
    SubseqCut(done, buf[..1], buf[1..]);
    SubseqTrans(done + buf[1..], done + buf, l.submitted + [query]);
  }

  lemma CutKeepsCount(done: seq<string>, buf: seq<string>, dropped: seq<string>)
    requires buf != []
    ensures multiset(done + buf) + multiset(dropped) == multiset(done + buf[1..]) + multiset(dropped + [buf[0]])
  {
    assert buf == [buf[0]] + buf[1..];
  }

  lemma LongerLine(l: Link, l': Link, q: Queue, query: string)
    requires Ordered(l, q) && |l'.qbuf| <= q.size
    requires l'.submitted == l.submitted + [query] && Line(l') == Line(l) + [query] && l'.dropped == l.dropped
    ensures Ordered(l', q)
  {
    SubseqSnoc(Line(l), l.submitted, query);
  }

  lemma ShorterLine(l: Link, l': Link, q: Queue, query: string)
    requires Ordered(l, q) && |l'.qbuf| <= q.size && l'.submitted == l.submitted + [query]
    requires Line(l') == CutLine(l, query) && l'.dropped == l.dropped + [(l.qbuf + [query])[0]]
    ensures Ordered(l', q)
  {
    var done, buf := Attempted(l.calls), l.qbuf + [query];
    CutKeepsOrder(l, query);
    CutKeepsCount(done, buf, l.dropped);
    assert done + buf == Line(l) + [query];
  }

  lemma QueryKeepsOrder(l: Link, q: Queue, query: string, answers: seq<bool>)
    requires Ordered(l, q)
    ensures Ordered(WriteToBase(l, q, query, answers), q)
  {
    var l' := WriteToBase(l, q, query, answers);
    WriteToBaseLine(l, q, query, answers);
    if l.connectOk || |l.qbuf| < q.size {
      LongerLine(l, l', q, query);
    } else {
      ShorterLine(l, l', q, query);
    }
  }

  lemma StepKeepsOrder(l: Link, q: Queue, e: Event)
    requires Ordered(l, q)
    ensures Ordered(Step(l, q, e), q)
  {
    match e
    case Query(query, answers) => QueryKeepsOrder(l, q, query, answers);
    case Init(connected, answers) =>
      FlushKeepsLine(l.(connectOk := true, reconnectArmed := false, pingArmed := true), answers);
    case Ping(_) =>
    case Reconnect(_, _, _, answers) =>
      FlushKeepsLine(l.(connectOk := true, reconnectArmed := false, pingArmed := true), answers);
  }

  /** In every run the queries tried, followed by those queued, are a selection of the submitted ones in
      their order: none is tried twice, no new query overtakes a queued one, and every other one was dropped. */
  lemma {:induction false} OrderInEveryRun(q: Queue, events: seq<Event>)
    ensures Ordered(Run(INITIAL, q, events), q)
  {
    if events == [] {
      assert Line(INITIAL) == [];
      SubseqRefl(Line(INITIAL));
    } else {
      var n := |events| - 1;
      OrderInEveryRun(q, events[..n]);
      StepKeepsOrder(Run(INITIAL, q, events[..n]), q, events[n]);
    }
  }

  /** A submitted query keeps every query tried or queued exactly when there is a connection or room. */
  lemma LostExactlyWhenFull(l: Link, q: Queue, query: string, answers: seq<bool>)
    ensures Line(WriteToBase(l, q, query, answers)) == Line(l) + [query] <==> l.connectOk || |l.qbuf| < q.size
  {
    WriteToBaseLine(l, q, query, answers);
    assert |CutLine(l, query)| < |Line(l) + [query]|;
  }

  // ---- The queue of an outage.

  /** The queries submitted in a run. */
  function Subs(events: seq<Event>): seq<string> {
    if events == [] then []
    else var n := |events| - 1; Subs(events[..n]) + if events[n].Query? then [events[n].query] else []
  }

  /** At no point of the run is there a connection, whatever the timers tried. */
  ghost predicate Outage(l: Link, q: Queue, events: seq<Event>) {
    !Run(l, q, events).connectOk && (events == [] || Outage(l, q, events[..|events| - 1]))
  }

  /** All but the last `n` elements. */
  function AllBut<T>(s: seq<T>, n: nat): seq<T> {
    if |s| <= n then [] else s[..|s| - n]
  }

  lemma LastNOneMore(s: seq<string>, n: nat, x: string)
    ensures LastN(s + [x], n) == var t := LastN(s, n) + [x]; if |t| <= n then t else t[1..]
    ensures AllBut(s + [x], n) == var t := LastN(s, n) + [x]; if |t| <= n then AllBut(s, n) else AllBut(s, n) + [t[0]]
  {
  }

  /** Nothing happens to the queue in an outage but the submissions. */
  lemma OutageStep(l: Link, q: Queue, e: Event)
    requires !l.connectOk && !Step(l, q, e).connectOk
    ensures var l' := Step(l, q, e);
            if e.Query? then l' == Enqueue(l.(submitted := l.submitted + [e.query]), q, e.query)
            else l'.qbuf == l.qbuf && l'.calls == l.calls && l'.submitted == l.submitted && l'.dropped == l.dropped
  {
  }

  /** What an outage with these submissions has made of the queue. */
  ghost predicate Queued(l: Link, l': Link, subs: seq<string>, size: nat) {
    && l'.qbuf == LastN(l.qbuf + subs, size) && l'.dropped == l.dropped + AllBut(l.qbuf + subs, size)
    && l'.calls == l.calls && l'.submitted == l.submitted + subs
  }

  lemma QueuedNothing(l: Link, size: nat)
    requires |l.qbuf| <= size
    ensures Queued(l, l, [], size)
  {
    assert l.qbuf + [] == l.qbuf && l.submitted + [] == l.submitted && l.dropped + [] == l.dropped;
  }

  lemma QueuedOneMore(l: Link, l': Link, q: Queue, subs: seq<string>, query: string)
    requires Queued(l, l', subs, q.size)
    ensures Queued(l, Enqueue(l'.(submitted := l'.submitted + [query]), q, query), subs + [query], q.size)
  {
    var all := l.qbuf + subs;
    LastNOneMore(all, q.size, query);
    assert l.qbuf + (subs + [query]) == all + [query];
    assert l.submitted + (subs + [query]) == l'.submitted + [query];
    assert l.dropped + (AllBut(all, q.size) + [(l'.qbuf + [query])[0]]) == l'.dropped + [(l'.qbuf + [query])[0]];
  }

  /** In an outage, under either setting and whatever the timers tried: nothing reaches the database, and the
      queue is the last `size` of what it held and what was submitted since; the others were dropped. */
  lemma {:induction false} QueueWhileDisconnected(l: Link, q: Queue, events: seq<Event>)
    requires |l.qbuf| <= q.size && Outage(l, q, events)
    ensures Queued(l, Run(l, q, events), Subs(events), q.size)
  {
    if events == [] {
      QueuedNothing(l, q.size);
    } else {
      var n := |events| - 1;
      var before := Run(l, q, events[..n]);
      QueueWhileDisconnected(l, q, events[..n]);
      OutageStep(before, q, events[n]);
      if events[n].Query? {
        QueuedOneMore(l, before, q, Subs(events[..n]), events[n].query);
      } else {
        assert Subs(events) == Subs(events[..n]);
      }
    }
  }

  // ---- What the setting bufferLastRemove changes.

  lemma EnqueueReports(l: Link, q: Queue, query: string)
    ensures var l' := Enqueue(l, q, query);
            if |l.qbuf| < q.size then l'.dropped == l.dropped && l'.reported == l.reported
            else l'.dropped == l.dropped + [(l.qbuf + [query])[0]]
                 && l'.reported == l.reported + [if q.lastRemove then query else (l.qbuf + [query])[0]]
  {
  }

  /** Only a query that finds no connection is ever dropped or reported. */
  lemma StepReports(l: Link, q: Queue, e: Event)
    ensures var l' := Step(l, q, e);
            if e.Query? && !l.connectOk then l' == Enqueue(l.(submitted := l.submitted + [e.query]), q, e.query)
            else l'.dropped == l.dropped && l'.reported == l.reported
  {
  }

  lemma EnqueueIgnoresSetting(l: Link, reported: seq<string>, size: nat, query: string)
    ensures Enqueue(l.(reported := reported), Queue(size, true), query).(reported := [])
            == Enqueue(l, Queue(size, false), query).(reported := [])
  {
  }

  /** One step under the two settings, from states that differ in the log only. */
  lemma StepIgnoresSetting(l: Link, reported: seq<string>, size: nat, e: Event)
    ensures Step(l.(reported := reported), Queue(size, true), e).(reported := [])
            == Step(l, Queue(size, false), e).(reported := [])
  {
    if e.Query? {
      EnqueueIgnoresSetting(l.(submitted := l.submitted + [e.query]), reported, size, e.query);
    }
  }

  /** The same run under the other setting differs in the log only. */
  lemma {:induction false} SettingOnlyReports(l: Link, size: nat, events: seq<Event>)
    ensures Run(l, Queue(size, true), events).(reported := []) == Run(l, Queue(size, false), events).(reported := [])
  {
    if events != [] {
      var n := |events| - 1;
      var a, b := Run(l, Queue(size, true), events[..n]), Run(l, Queue(size, false), events[..n]);
      SettingOnlyReports(l, size, events[..n]);
      assert a == b.(reported := a.reported);
      StepIgnoresSetting(b, a.reported, size, events[n]);
    }
  }

  lemma {:induction false} ReportsDropped(q: Queue, events: seq<Event>)
    requires !q.lastRemove || q.size == 0
    ensures Run(INITIAL, q, events).reported == Run(INITIAL, q, events).dropped
  {
    if events != [] {
      var n := |events| - 1;
      var l := Run(INITIAL, q, events[..n]);
      ReportsDropped(q, events[..n]);
      OrderInEveryRun(q, events[..n]);
      StepReports(l, q, events[n]);
      if events[n].Query? {
        EnqueueReports(l.(submitted := l.submitted + [events[n].query]), q, events[n].query);
      }
    }
  }

  /** `size` queries "a" and a last one "b". */
  function Filled(size: nat): seq<Event> {
    seq(size, i => Query("a", []))
  }

  lemma {:induction false} AfterFilled(q: Queue, k: nat)
    requires k <= q.size
    ensures var l := Run(INITIAL, q, Filled(k));
            !l.connectOk && l.reported == [] && |l.qbuf| == k && (forall i | 0 <= i < k :: l.qbuf[i] == "a")
  {
    if k > 0 {
      assert Filled(k)[..k - 1] == Filled(k - 1);
      AfterFilled(q, k - 1);
    }
  }

  /** The log names the queries that were dropped, in every run, exactly without bufferLastRemove (or a queue). */
  lemma ReportsExactly(q: Queue)
    ensures (forall events: seq<Event> :: Run(INITIAL, q, events).reported == Run(INITIAL, q, events).dropped)
            <==> !q.lastRemove || q.size == 0
  {
    if !q.lastRemove || q.size == 0 {
      forall events: seq<Event> ensures Run(INITIAL, q, events).reported == Run(INITIAL, q, events).dropped {
        ReportsDropped(q, events);
      }
    } else {
      AfterFilled(q, q.size);
      RunSnoc(INITIAL, q, Filled(q.size), Query("b", []));
      var l := Run(INITIAL, q, Filled(q.size) + [Query("b", [])]);
      assert l.reported == ["b"] && l.dropped[|l.dropped| - 1] == "a";
    }
  }

  // ---- What each message does to the connection and to the queue.

  /** The connection after any message. */
  lemma ConnectedExactly(l: Link, q: Queue, e: Event)
    ensures Step(l, q, e).connectOk <==>
              match e
              case Query(_, _) => l.connectOk
              case Init(connected, _) => l.connectOk || connected
              case Ping(pingOk) => pingOk
              case Reconnect(isConnection, pingOk, connected, _) =>
                if isConnection then pingOk else l.connectOk || connected
  {
  }

  /** The calls that try some queries in order, with one answer for each. */
  ghost predicate TriedInOrder(calls: seq<DbCall>, calls': seq<DbCall>, queries: seq<string>, answers: seq<bool>) {
    && |calls'| == |calls| + |queries| && calls'[..|calls|] == calls
    && forall k | 0 <= k < |queries| :: calls'[|calls| + k] == Queried(queries[k], k < |answers| && answers[k])
  }

  /** With a connection a query is tried at once, behind everything queued. */
  lemma WriteTries(l: Link, q: Queue, query: string, answers: seq<bool>)
    requires l.connectOk
    ensures var l' := Step(l, q, Query(query, answers));
            l'.qbuf == [] && TriedInOrder(l.calls, l'.calls, l.qbuf + [query], answers)
  {
  }

  /** An attempt that connects, at the start or after the connection was lost, tries everything queued. */
  lemma ConnectTries(l: Link, q: Queue, e: Event)
    requires !l.connectOk && Step(l, q, e).connectOk && (e.Init? || (e.Reconnect? && !e.isConnection))
    ensures var l' := Step(l, q, e);
            && l'.qbuf == [] && TriedInOrder(l.calls, l'.calls, l.qbuf, e.answers)
            && Attempted(l'.calls) == Attempted(l.calls) + l.qbuf && l'.dropped == l.dropped
  {
    AttemptedMore(l.calls, l.qbuf, e.answers);
  }

  /** Any other message leaves the queue and the database alone. */
  lemma QuietOtherwise(l: Link, q: Queue, e: Event)
    requires !e.Query? && !(!l.connectOk && Step(l, q, e).connectOk && (e.Init? || (e.Reconnect? && !e.isConnection)))
    ensures var l' := Step(l, q, e);
            && l'.qbuf == l.qbuf && l'.calls == l.calls && l'.submitted == l.submitted
            && l'.dropped == l.dropped && l'.reported == l.reported
  {
  }

  /** A ping that succeeds on a connection given up restores it and leaves the queue as it is. */
  predicate Restores(l: Link, e: Event) {
    !l.connectOk && ((e.Ping? && e.pingOk) || (e.Reconnect? && e.isConnection && e.pingOk))
  }

  ghost predicate Idle(l: Link) {
    l.connectOk ==> l.qbuf == []
  }

  /** Nothing waits while connected, unless the message restores the connection over a queue. */
  lemma IdleStep(l: Link, q: Queue, e: Event)
    requires Idle(l)
    ensures Idle(Step(l, q, e)) <==> !(Restores(l, e) && l.qbuf != [])
  {
  }

  ghost predicate IdleThroughout(q: Queue, events: seq<Event>) {
    Idle(Run(INITIAL, q, events)) && (events == [] || IdleThroughout(q, events[..|events| - 1]))
  }

  ghost predicate NeverRestoresQueue(q: Queue, events: seq<Event>) {
    events == [] ||
      var n := |events| - 1;
      var l := Run(INITIAL, q, events[..n]);
      NeverRestoresQueue(q, events[..n]) && !(Restores(l, events[n]) && l.qbuf != [])
  }

  /** In every run: no query ever waits while connected, exactly if no ping restores the connection while
      queries wait. */
  lemma {:induction false} IdleInEveryRun(q: Queue, events: seq<Event>)
    ensures IdleThroughout(q, events) <==> NeverRestoresQueue(q, events)
  {
    if events != [] {
      var n := |events| - 1;
      IdleInEveryRun(q, events[..n]);
      if IdleThroughout(q, events[..n]) {
        IdleAtEnd(q, events[..n]);
        IdleStep(Run(INITIAL, q, events[..n]), q, events[n]);
      }
    }
  }

  lemma IdleAtEnd(q: Queue, events: seq<Event>)
    requires IdleThroughout(q, events)
    ensures Idle(Run(INITIAL, q, events))
  {
  }

  /** It happens: a lost ping, a query, and a connection that is found open again. */
  lemma QueueWaitsConnected(q: Queue, query: string)
    requires q.size > 0
    ensures var events := [Init(true, []), Ping(false)] + [Query(query, [])] + [Reconnect(true, true, true, [])];
            var l := Run(INITIAL, q, events);
            l.connectOk && l.qbuf == [query] && l.calls == []
  {
    var start := [Init(true, []), Ping(false)];
    RunSnoc(INITIAL, q, start + [Query(query, [])], Reconnect(true, true, true, []));
    RunSnoc(INITIAL, q, start, Query(query, []));
    assert start == ([] + [Init(true, [])]) + [Ping(false)];
    RunSnoc(INITIAL, q, [] + [Init(true, [])], Ping(false));
    RunSnoc(INITIAL, q, [], Init(true, []));
  }
}
