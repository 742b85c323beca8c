/** DBServer_PostgreSQL: sensor records collected in the insert buffer, queries in the queue of DbLink. */
module PostgreSQL {
  import opened DbLink

  datatype Params = Params(ibufMaxSize: nat, ibufOverflowCleanFactor: real, lastRemove: bool, qbufSize: nat) {
    function TheQueue(): Queue {
      Queue(qbufSize, lastRemove)
    }
  }

  /** `outside` records that std::prev or std::next left the vector; `lost` what the overflow erased. */
  datatype Pg = Pg(link: Link, ibuf: seq<Record>, ibufSize: nat, arrived: seq<Record>, lost: seq<Record>, outside: bool)

  const INITIAL_PG := Pg(INITIAL, [], 0, [], [], false)

  /** lroundf of a number that is not negative. */
  function Lround(x: real): int {
    (x + 0.5).Floor
  }

  /** The number called delnum, for a counter that stands at `size`. */
  function Del(p: Params, size: nat): (d: nat)
    requires p.ibufOverflowCleanFactor >= 0.0
  {
    var x := size as real * p.ibufOverflowCleanFactor;
    assert x >= 0.0;
    Lround(x)
  }

  /** What the erase in the overflow branch leaves: `del` records at the new or at the old end. */
  function Kept(ibuf: seq<Record>, del: nat, lastRemove: bool): seq<Record>
    requires del <= |ibuf|
  {
    if lastRemove then ibuf[|ibuf| - del..] else ibuf[..del]
  }

  function Erased(ibuf: seq<Record>, del: nat, lastRemove: bool): seq<Record>
    requires del <= |ibuf|
  {
    if lastRemove then ibuf[..|ibuf| - del] else ibuf[del..]
  }

  ghost predicate ValidParams(p: Params) {
    p.ibufOverflowCleanFactor >= 0.0
  }

  /** The overflow branch of flushInsertBuffer, for its delnum. */
  function Cut(s: Pg, del: nat, lastRemove: bool): Pg {
    var s1 := s.(ibufSize := if del < s.ibufSize then s.ibufSize - del else 0);
    if del > |s.ibuf| then s1.(outside := true)
    else s1.(ibuf := Kept(s.ibuf, del, lastRemove), lost := s.lost + Erased(s.ibuf, del, lastRemove))
  }

  function Overflow(p: Params, s: Pg): Pg
    requires ValidParams(p)
  {
    Cut(s, Del(p, s.ibufSize), p.lastRemove)
  }

  /** The write of flushInsertBuffer; `copyOk` is the answer of the database. */
  function Written(s: Pg, copyOk: bool): Pg {
    if s.ibufSize == 0 || !s.link.connectOk then s
    else
      var s1 := s.(link := s.link.(calls := s.link.calls + [Copied(s.ibuf, copyOk)]));
      if copyOk then s1.(ibuf := [], ibufSize := 0) else s1
  }

  /** flushInsertBuffer. */
  function FlushInsert(p: Params, s: Pg, copyOk: bool): Pg
    requires ValidParams(p)
  {
    Written(if s.ibufSize > p.ibufMaxSize then Overflow(p, s) else s, copyOk)
  }

  function Arrive(s: Pg, rec: Record): Pg {
    s.(ibuf := s.ibuf + [rec], ibufSize := s.ibufSize + 1, arrived := s.arrived + [rec])
  }

  /** addRecord. */
  function Added(p: Params, s: Pg, rec: Record, copyOk: bool): Pg
    requires ValidParams(p)
  {
    var s1 := Arrive(s, rec);
    if s1.ibufSize >= p.ibufMaxSize then FlushInsert(p, s1, copyOk) else s1
  }

  /** confirmInfo: the insert buffer first, then the UPDATE. */
  function Confirmed(p: Params, s: Pg, update: string, copyOk: bool, answers: seq<bool>): Pg
    requires ValidParams(p)
  {
    var s1 := FlushInsert(p, s, copyOk);
    s1.(link := WriteToBase(s1.link, p.TheQueue(), update, answers))
  }

  datatype PgEvent = Sensor(rec: Record, copyOk: bool)
                   | Confirm(update: string, copyOk: bool, answers: seq<bool>)
                   | FlushTimer(copyOk: bool)
                   | OnLink(e: Event)

  function PgStep(p: Params, s: Pg, e: PgEvent): Pg
    requires ValidParams(p)
  {
    match e
    case Sensor(rec, copyOk) => Added(p, s, rec, copyOk)
    case Confirm(update, copyOk, answers) => Confirmed(p, s, update, copyOk, answers)
    case FlushTimer(copyOk) => FlushInsert(p, s, copyOk)
    case OnLink(e) => s.(link := Step(s.link, p.TheQueue(), e))
  }

  function PgRun(p: Params, events: seq<PgEvent>): Pg
    requires ValidParams(p)
  {
    if events == [] then INITIAL_PG
    else var n := |events| - 1; PgStep(p, PgRun(p, events[..n]), events[n])
  }

  // ---- The invariant of counter and buffer.

  /** lroundf: the nearest integer, and of two nearest the larger. */
  lemma LroundIsNearest(x: real)
    requires x >= 0.0
    ensures Lround(x) >= 0 && x - 0.5 < Lround(x) as real <= x + 0.5
  {
  }

  /** delnum at the first overflow. */
  function FirstDel(p: Params): nat
    requires ValidParams(p)
  {
    Del(p, p.ibufMaxSize + 1)
  }

  /** With d = delnum of the first overflow: the counter is exact, or off by 2d - (ibufMaxSize + 1). With
      d = 0 the counter runs away while at most one record is kept. */
  ghost predicate InBounds(p: Params, s: Pg)
    requires ValidParams(p)
  {
    var d, m := FirstDel(p), p.ibufMaxSize;
    && !s.outside
    && if d > 0 then
         s.ibufSize <= m
         && (|s.ibuf| == s.ibufSize || (|s.ibuf| == s.ibufSize + 2 * d - (m + 1) && s.ibufSize >= m + 1 - d))
       else if s.ibufSize <= m then |s.ibuf| == s.ibufSize
       else |s.ibuf| <= 1 && Del(p, s.ibufSize) == 0
  }

  lemma DelOneMore(p: Params, n: nat)
    requires ValidParams(p) && FirstDel(p) == 0 && Del(p, n) == 0
    ensures Del(p, n + 1) <= 1
  {
    var f := p.ibufOverflowCleanFactor;
    var m := p.ibufMaxSize;
    assert (n + 1) as real * f == n as real * f + f;
    assert (m + 1) as real * f == m as real * f + f;
    assert m as real * f >= 0.0;
  }

  lemma FlushKeepsBounds(p: Params, s: Pg, copyOk: bool)
    requires ValidParams(p) && FirstDel(p) <= p.ibufMaxSize + 1 && InBounds(p, s)
    ensures InBounds(p, FlushInsert(p, s, copyOk))
  {
  }

  /** The buffer of a state with one record more than a state within bounds. */
  lemma OverflowKeepsBounds(p: Params, s: Pg)
    requires ValidParams(p) && FirstDel(p) <= p.ibufMaxSize + 1 && !s.outside && s.ibufSize > p.ibufMaxSize
    requires if FirstDel(p) > 0 then s.ibufSize == p.ibufMaxSize + 1 && |s.ibuf| in {s.ibufSize, 2 * FirstDel(p)}
             else Del(p, s.ibufSize) <= 1 && Del(p, s.ibufSize - 1) == 0 && Del(p, s.ibufSize) <= |s.ibuf|
    ensures InBounds(p, Overflow(p, s))
  {
  }

  lemma WriteKeepsBounds(p: Params, s: Pg, copyOk: bool)
    requires ValidParams(p) && InBounds(p, s)
    ensures var s1 := s.(link := s.link.(calls := s.link.calls + [Copied(s.ibuf, copyOk)]));
            InBounds(p, if copyOk then s1.(ibuf := [], ibufSize := 0) else s1)
  {
  }

  lemma AddKeepsBounds(p: Params, s: Pg, rec: Record, copyOk: bool)
    requires ValidParams(p) && FirstDel(p) <= p.ibufMaxSize + 1 && InBounds(p, s)
    ensures InBounds(p, Added(p, s, rec, copyOk))
  {
    var s1 := Arrive(s, rec);
    if s.ibufSize >= p.ibufMaxSize {
      if FirstDel(p) == 0 {
        if s.ibufSize > p.ibufMaxSize {
          DelOneMore(p, s.ibufSize);
        } else {
          DelBelow(p, s.ibufSize);
        }
      }
      OverflowKeepsBounds(p, s1);
      WriteKeepsBounds(p, Overflow(p, s1), copyOk);
    } else {
      WriteKeepsBounds(p, s1, copyOk);
    }
  }

  lemma DelBelow(p: Params, n: nat)
    requires ValidParams(p) && FirstDel(p) == 0 && n <= p.ibufMaxSize + 1
    ensures Del(p, n) == 0
  {
    var f, m := p.ibufOverflowCleanFactor, p.ibufMaxSize + 1;
    assert m as real * f == n as real * f + (m - n) as real * f;
    assert (m - n) as real * f >= 0.0;
  }

  /** One record more, and the overflow branch leaves no more than there are. */
  lemma KeptInside(p: Params, s: Pg)
    requires ValidParams(p) && FirstDel(p) <= p.ibufMaxSize + 1 && InBounds(p, s) && s.ibufSize >= p.ibufMaxSize
    ensures Del(p, s.ibufSize + 1) <= |s.ibuf| + 1
  {
    if FirstDel(p) == 0 && s.ibufSize > p.ibufMaxSize {
      DelOneMore(p, s.ibufSize);
    }
  }

  lemma StepKeepsBounds(p: Params, s: Pg, e: PgEvent)
    requires ValidParams(p) && FirstDel(p) <= p.ibufMaxSize + 1 && InBounds(p, s)
    ensures InBounds(p, PgStep(p, s, e))
  {
    match e
    case Sensor(rec, copyOk) => AddKeepsBounds(p, s, rec, copyOk);
    case Confirm(_, copyOk, _) => FlushKeepsBounds(p, s, copyOk);
    case FlushTimer(copyOk) => FlushKeepsBounds(p, s, copyOk);
    case OnLink(_) =>
  }

  lemma {:induction false} RunKeepsBounds(p: Params, events: seq<PgEvent>)
    requires ValidParams(p) && FirstDel(p) <= p.ibufMaxSize + 1
    ensures InBounds(p, PgRun(p, events))
  {
    if events != [] {
      var n := |events| - 1;
      RunKeepsBounds(p, events[..n]);
      StepKeepsBounds(p, PgRun(p, events[..n]), events[n]);
    }
  }

  datatype Timers = PingTimer | ReconnectTimer | FlushInsertBuffer

  class DBServer_PostgreSQL {
    const params: Params
    var connect_ok: bool
    var pingArmed: bool
    var reconnectArmed: bool
    var qbuf: seq<string>
    var ibuf: seq<Record>
    var ibufSize: nat
    ghost var calls: seq<DbCall>
    ghost var submitted: seq<string>
    ghost var dropped: seq<string>
    ghost var reported: seq<string>
    ghost var arrived: seq<Record>
    ghost var lost: seq<Record>

    ghost function TheLink(): Link
      reads this
    {
      Link(connect_ok, pingArmed, reconnectArmed, qbuf, calls, submitted, dropped, reported)
    }

    ghost function State(): Pg
      reads this
    {
      Pg(TheLink(), ibuf, ibufSize, arrived, lost, false)
    }

    /** The factor keeps the first overflow inside the vector, and so all of them. */
    ghost predicate Valid()
      reads this
    {
      ValidParams(params) && FirstDel(params) <= params.ibufMaxSize + 1 && InBounds(params, State())
    }

    constructor (params: Params)
      requires ValidParams(params) && FirstDel(params) <= params.ibufMaxSize + 1
      ensures Valid() && State() == INITIAL_PG && this.params == params
    {
      this.params := params;
      connect_ok, pingArmed, reconnectArmed := false, false, false;
      qbuf, ibuf, ibufSize := [], [], 0;
      calls, submitted, arrived, lost, dropped, reported := [], [], [], [], [], [];
    }

    /** db->copy and db->insert: the answer is an input, the call is remembered. */
    ghost method Called(call: DbCall)
      modifies this`calls
      ensures calls == old(calls) + [call]
    {
      calls := calls + [call];
    }

    method FlushInsertBuffer(copyOk: bool)
      requires ValidParams(params) && (ibufSize > params.ibufMaxSize ==> Del(params, ibufSize) <= |ibuf|)
      modifies this`ibuf, this`ibufSize, this`calls, this`lost
      ensures State() == FlushInsert(params, old(State()), copyOk)
    {
      if ibufSize > params.ibufMaxSize {
        var delnum := Del(params, ibufSize);
        var beg, end := 0, |ibuf|;
        if params.lastRemove {
          end := end - delnum;
        } else {
          beg := beg + delnum;
        }
        if beg != |ibuf| {
          lost := lost + ibuf[beg..end];
          ibuf := ibuf[..beg] + ibuf[end..];
        }
        ibufSize := if delnum < ibufSize then ibufSize - delnum else 0;
        assert State() == Cut(old(State()), delnum, params.lastRemove);
      }
      WriteInsertBuffer(copyOk);
    }

    /** The end of flushInsertBuffer. */
    method WriteInsertBuffer(copyOk: bool)
      modifies this`ibuf, this`ibufSize, this`calls
      ensures State() == Written(old(State()), copyOk)
    {
      if ibufSize == 0 || !connect_ok {
        return;
      }
      Called(Copied(ibuf, copyOk));
      if copyOk {
        ibuf := [];
        ibufSize := 0;
      }
    }

    /** sensorInfo, after the record is made: addRecord. */
    method AddRecord(rec: Record, copyOk: bool)
      requires Valid()
      modifies this`ibuf, this`ibufSize, this`calls, this`lost, this`arrived
      ensures Valid() && State() == Added(params, old(State()), rec, copyOk)
    {
      AddKeepsBounds(params, State(), rec, copyOk);
      if ibufSize >= params.ibufMaxSize {
        KeptInside(params, State());
      }
      ghost var was := State();
      arrived := arrived + [rec];
      ibuf := ibuf + [rec];
      ibufSize := ibufSize + 1;
      assert State() == Arrive(was, rec);
      if ibufSize >= params.ibufMaxSize {
        FlushInsertBuffer(copyOk);
      }
    }

    method WriteToBase(query: string, answers: seq<bool>) returns (ok: bool)
      modifies this`qbuf, this`calls, this`submitted, this`dropped, this`reported
      ensures TheLink() == DbLink.WriteToBase(old(TheLink()), params.TheQueue(), query, answers)
      ensures ok == (connect_ok && Answer(answers, |old(qbuf)|))
    {
      submitted := submitted + [query];
      if !connect_ok {
        qbuf := qbuf + [query];
        if |qbuf| > params.qbufSize {
          var qlost := if params.lastRemove then qbuf[|qbuf| - 1] else qbuf[0];
          dropped := dropped + [qbuf[0]];
          qbuf := qbuf[1..];
          reported := reported + [qlost];
        }
        return false;
      }
      var n := |qbuf|;
      FlushBuffer(answers);
      ok := Answer(answers, n);
      Called(Queried(query, ok));
    }

    method FlushBuffer(answers: seq<bool>)
      modifies this`qbuf, this`calls
      ensures TheLink() == DbLink.FlushBuffer(old(TheLink()), answers)
    {
      ghost var done := 0;
      while |qbuf| > 0
        invariant done + |qbuf| == |old(qbuf)| && qbuf == old(qbuf)[done..]
        invariant calls == old(calls) + QueryCalls(old(qbuf), answers)[..done]
        decreases |qbuf|
      {
        Called(Queried(qbuf[0], Answer(answers, done)));
        qbuf := qbuf[1..];
        done := done + 1;
      }
    }

    /** confirmInfo with its UPDATE text. */
    method ConfirmInfo(update: string, copyOk: bool, answers: seq<bool>)
      requires Valid()
      modifies this`ibuf, this`ibufSize, this`calls, this`lost, this`qbuf, this`submitted
      modifies this`dropped, this`reported
      ensures Valid() && State() == Confirmed(params, old(State()), update, copyOk, answers)
    {
      FlushKeepsBounds(params, State(), copyOk);
      FlushInsertBuffer(copyOk);
      var _ := WriteToBase(update, answers);
    }

    /** initDBServer, the connection part. */
    method InitDBServer(connected: bool, answers: seq<bool>)
      modifies this`connect_ok, this`pingArmed, this`reconnectArmed, this`qbuf, this`calls
      ensures TheLink() == DbLink.InitDBServer(old(TheLink()), connected, answers)
    {
      if connect_ok {
        return;
      }
      if !connected {
        reconnectArmed := true;
      } else {
        connect_ok := true;
        reconnectArmed := false;
        pingArmed := true;
        FlushBuffer(answers);
      }
    }

    /** timerInfo for each of the three timers, with the answers that it may ask for. */
    method TimerInfo(id: Timers, isConnection: bool, pingOk: bool, connected: bool, copyOk: bool, answers: seq<bool>)
      requires Valid()
      modifies this`connect_ok, this`pingArmed, this`reconnectArmed, this`qbuf, this`calls
      modifies this`ibuf, this`ibufSize, this`lost
      ensures Valid()
      ensures State() == PgStep(params, old(State()),
                                match id
                                case PingTimer => OnLink(Ping(pingOk))
                                case ReconnectTimer => OnLink(Reconnect(isConnection, pingOk, connected, answers))
                                case FlushInsertBuffer => FlushTimer(copyOk))
    {
      match id
      case PingTimer =>
        if !pingOk {
          connect_ok := false;
          pingArmed := false;
          reconnectArmed := true;
        } else {
          connect_ok := true;
        }
      case ReconnectTimer =>
        if isConnection {
          if pingOk {
            connect_ok := true;
            reconnectArmed := false;
            pingArmed := true;
          } else {
            connect_ok := false;
          }
        } else {
          InitDBServer(connected, answers);
        }
      case FlushInsertBuffer =>
        FlushKeepsBounds(params, State(), copyOk);
        FlushInsertBuffer(copyOk);
    }
  }
}
