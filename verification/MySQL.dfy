/** DBServer_MySQL: every message is a query, in the queue and with the connection machine of DbLink. */
module MySQL {
  import opened DbLink

  datatype Timers = PingTimer | ReconnectTimer

  class DBServer_MySQL {
    const qbufSize: nat
    const lastRemove: bool
    var connect_ok: bool
    var pingArmed: bool
    var reconnectArmed: bool
    var qbuf: seq<string>
    ghost var calls: seq<DbCall>
    ghost var submitted: seq<string>
    ghost var dropped: seq<string>
    ghost var reported: seq<string>

    ghost function State(): Link
      reads this
    {
      Link(connect_ok, pingArmed, reconnectArmed, qbuf, calls, submitted, dropped, reported)
    }

    constructor (qbufSize: nat, lastRemove: bool)
      ensures State() == INITIAL && this.qbufSize == qbufSize && this.lastRemove == lastRemove
    {
      this.qbufSize, this.lastRemove := qbufSize, lastRemove;
      connect_ok, pingArmed, reconnectArmed, qbuf := false, false, false, [];
      calls, submitted, dropped, reported := [], [], [], [];
    }

    /** db->query: success is an empty db->error(), which is the input. */
    method Query(query: string, noError: bool)
      modifies this`calls
      ensures calls == old(calls) + [Queried(query, noError)]
    {
      calls := calls + [Queried(query, noError)];
    }

    /** writeToBase, which every handler ends in. */
    method WriteToBase(query: string, answers: seq<bool>) returns (ok: bool)
      modifies this`qbuf, this`calls, this`submitted, this`dropped, this`reported
      ensures State() == DbLink.WriteToBase(old(State()), Queue(qbufSize, lastRemove), query, answers)
      ensures ok == (connect_ok && Answer(answers, |old(qbuf)|))
    {
      submitted := submitted + [query];
      if !connect_ok {
        qbuf := qbuf + [query];
        if |qbuf| > qbufSize {
          var qlost := if lastRemove then qbuf[|qbuf| - 1] else qbuf[0];
          dropped := dropped + [qbuf[0]];
          qbuf := qbuf[1..];
          reported := reported + [qlost];
        }
        return false;
      }
      var n := |qbuf|;
      FlushBuffer(answers);
      ok := Answer(answers, n);
      Query(query, ok);
    }

    method FlushBuffer(answers: seq<bool>)
      modifies this`qbuf, this`calls
      ensures State() == DbLink.FlushBuffer(old(State()), answers)
    {
      var done := 0;
      while |qbuf| > 0
        invariant 0 <= done && done + |qbuf| == |old(qbuf)| && qbuf == old(qbuf)[done..]
        invariant calls == old(calls) + QueryCalls(old(qbuf), answers)[..done]
        decreases |qbuf|
      {
        Query(qbuf[0], Answer(answers, done));
        qbuf := qbuf[1..];
        done := done + 1;
      }
    }

    /** initDBServer, the connection part. */
    method InitDBServer(connected: bool, answers: seq<bool>)
      modifies this`connect_ok, this`pingArmed, this`reconnectArmed, this`qbuf, this`calls
      ensures State() == DbLink.InitDBServer(old(State()), connected, answers)
    {
      if connect_ok {
        return;
      }
      if !connected {
        reconnectArmed := true;
      } else {
        connect_ok := true;
        reconnectArmed := false;
        pingArmed := true;
        FlushBuffer(answers);
      }
    }

    method TimerInfo(id: Timers, isConnection: bool, pingOk: bool, connected: bool, answers: seq<bool>)
      modifies this`connect_ok, this`pingArmed, this`reconnectArmed, this`qbuf, this`calls
      ensures State() == Step(old(State()), Queue(qbufSize, lastRemove),
                              match id
                              case PingTimer => Ping(pingOk)
                              case ReconnectTimer => Reconnect(isConnection, pingOk, connected, answers))
    {
      match id
      case PingTimer =>
        if !pingOk {
          connect_ok := false;
          pingArmed := false;
          reconnectArmed := true;
        } else {
          connect_ok := true;
        }
      case ReconnectTimer =>
        if isConnection {
          if pingOk {
            connect_ok := true;
            reconnectArmed := false;
            pingArmed := true;
          } else {
            connect_ok := false;
          }
        } else {
          InitDBServer(connected, answers);
        }
    }
  }
}
