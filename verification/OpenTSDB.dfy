/** BackendOpenTSDB: lines of the InfluxDB line protocol, buffered and sent over one TCP stream. */
module OpenTSDB {
  import opened Sequences
  import opened Text

  type ObjectId = int

  /** The outcome of sendBytes: bytes taken, errno EPIPE or EBADF, another errno, or an exception. */
  datatype SendResult = Sent(count: nat) | BrokenPipe | OtherErrno | IoException | OtherException

  /** What a flushBuffer may ask: is the stream connected, what does the send do, does a reconnect work. */
  datatype Answers = Answers(isConnected: bool, send: SendResult, reconnectOk: bool)

  datatype Params = Params(bufSize: nat, bufMaxSize: nat)

  /** `flushed` are the lines the buffer was cleared of, `wire` the bytes that reached the peer. */
  datatype Tsdb = Tsdb(buf: seq<string>, tcp: bool, timerIsOn: bool, flushArmed: bool, reconnectArmed: bool,
                       flushed: seq<string>, wire: string, accepted: seq<string>)

  const INITIAL := Tsdb([], false, false, false, false, [], "", [])

  function Concat(lines: seq<string>): string {
    if lines == [] then "" else lines[0] + Concat(lines[1..])
  }

  /** The bytes of `q` that a send delivers. */
  function Delivered(send: SendResult, q: string): string {
    if send.Sent? && send.count < |q| then q[..send.count] else if send.Sent? then q else ""
  }

  /** flushBuffer: it reports success exactly when the buffer is empty afterwards. */
  function Flush(s: Tsdb, a: Answers): (r: (Tsdb, bool))
    ensures r.0.buf == if r.1 then [] else s.buf
    ensures r.1 <==> r.0.buf == []
    ensures r.0.accepted == s.accepted
  {
    if s.buf == [] then (if s.timerIsOn then s.(flushArmed := false, timerIsOn := false) else s, true)
    else if !s.tcp || !a.isConnected then (s, false)
    else
      match a.send
      case Sent(_) => (Cleared(s, a.send), true)
      case OtherErrno => (Cleared(s, a.send), true)
      case BrokenPipe => (s.(tcp := a.reconnectOk), false)
      case IoException => (s.(tcp := a.reconnectOk, reconnectArmed := s.reconnectArmed || !a.reconnectOk), false)
      case OtherException => (s, false)
  }

  function Cleared(s: Tsdb, send: SendResult): Tsdb {
    s.(buf := [], flushArmed := false, timerIsOn := false,
       flushed := s.flushed + s.buf, wire := s.wire + Delivered(send, Concat(s.buf)))
  }

  /** sensorInfo for a known sensor: up to two flushes before the line is buffered or lost. */
  function Sensor(p: Params, s: Tsdb, line: string, first: Answers, second: Answers): Tsdb {
    if |s.buf| < p.bufSize then Push(s, line)
    else
      var (s1, ok1) := Flush(s, first);
      if ok1 || |s1.buf| < p.bufMaxSize then Push(s1, line)
      else
        var (s2, ok2) := Flush(s1, second);
        if ok2 then Push(s2, line) else s2
  }

  function Push(s: Tsdb, line: string): Tsdb {
    s.(buf := s.buf + [line], accepted := s.accepted + [line],
       timerIsOn := true, flushArmed := s.flushArmed || !s.timerIsOn)
  }

  datatype Event = Message(line: string, first: Answers, second: Answers)
                 | FlushTimer(answers: Answers)
                 | ReconnectTimer(ok: bool)
                 | StartUp(ok: bool)

  function Step(p: Params, s: Tsdb, e: Event): Tsdb {
    match e
    case Message(line, first, second) => Sensor(p, s, line, first, second)
    case FlushTimer(answers) => Flush(s.(flushArmed := false), answers).0
    case ReconnectTimer(ok) => s.(tcp := ok, reconnectArmed := s.reconnectArmed && !ok)
    case StartUp(ok) => s.(tcp := ok, reconnectArmed := s.reconnectArmed || !ok)
  }

  function Run(p: Params, events: seq<Event>): Tsdb {
    if events == [] then INITIAL else var n := |events| - 1; Step(p, Run(p, events[..n]), events[n])
  }

  // ---- The size of the buffer.

  function Max(a: nat, b: nat): nat {
    if a < b then b else a
  }

  lemma SensorBound(p: Params, s: Tsdb, line: string, first: Answers, second: Answers)
    ensures |Sensor(p, s, line, first, second).buf| <= Max(|s.buf|, Max(1, Max(p.bufSize, p.bufMaxSize)))
  {
    var s1 := Flush(s, first).0;
    assert s1.buf == s.buf || s1.buf == [];
  }

  lemma StepBound(p: Params, s: Tsdb, e: Event)
    ensures |Step(p, s, e).buf| <= Max(|s.buf|, Max(1, Max(p.bufSize, p.bufMaxSize)))
  {
    if e.Message? {
      SensorBound(p, s, e.line, e.first, e.second);
    } else if e.FlushTimer? {
      assert |Flush(s.(flushArmed := false), e.answers).0.buf| <= |s.buf|;
    }
  }

  lemma {:induction false} RunBound(p: Params, events: seq<Event>)
    ensures |Run(p, events).buf| <= Max(1, Max(p.bufSize, p.bufMaxSize))
  {
    if events != [] {
      RunBound(p, events[..|events| - 1]);
      StepBound(p, Run(p, events[..|events| - 1]), events[|events| - 1]);
    }
  }

  /** The larger of the two sizes bounds the buffer in every run, unless both are 0. */
  lemma BoundExactly(p: Params)
    ensures (forall events: seq<Event> :: |Run(p, events).buf| <= Max(p.bufSize, p.bufMaxSize))
            <==> Max(p.bufSize, p.bufMaxSize) > 0
  {
    if Max(p.bufSize, p.bufMaxSize) > 0 {
      forall events: seq<Event> ensures |Run(p, events).buf| <= Max(p.bufSize, p.bufMaxSize) {
        RunBound(p, events);
      }
    } else {
      var a := Answers(false, OtherException, false);
      var events := [Message("", a, a)];
      assert events[..0] == [];
      assert |Run(p, events).buf| == 1;
    }
  }

  // ---- The stream.

  lemma {:induction false} ConcatAppend(a: seq<string>, b: seq<string>)
    ensures Concat(a + b) == Concat(a) + Concat(b)
  {
    if a == [] {
      assert a + b == b;
    } else {
      ConcatAppend(a[1..], b);
      assert (a + b)[1..] == a[1..] + b;
    }
  }

  /** The send takes all of the text or none of it, and says so. */
  predicate AllOrNothing(send: SendResult, q: string) {
    match send
    case Sent(count) => count >= |q|
    case OtherErrno => q == ""
    case _ => true
  }

  ghost predicate Stream(s: Tsdb) {
    s.accepted == s.flushed + s.buf && s.wire == Concat(s.flushed)
  }

  lemma SameStart(start: string, x: string, y: string)
    ensures start + x == start + y <==> x == y
  {
    assert x == (start + x)[|start|..];
    assert y == (start + y)[|start|..];
  }

  lemma DeliveredAll(send: SendResult, q: string)
    requires send.Sent? || send.OtherErrno?
    ensures Delivered(send, q) == q <==> AllOrNothing(send, q)
  {
    if send.Sent? && send.count < |q| {
      assert |Delivered(send, q)| < |q|;
    }
  }

  lemma ClearedStream(s: Tsdb, send: SendResult)
    requires Stream(s)
    ensures Stream(Cleared(s, send)) <==> Delivered(send, Concat(s.buf)) == Concat(s.buf)
  {
    ConcatAppend(s.flushed, s.buf);
    SameStart(s.wire, Delivered(send, Concat(s.buf)), Concat(s.buf));
    assert s.accepted == (s.flushed + s.buf) + [];
  }

  /** If this flush sends anything, it sends all of it or nothing. */
  ghost predicate GoodSend(s: Tsdb, a: Answers) {
    s.buf != [] && s.tcp && a.isConnected ==> AllOrNothing(a.send, Concat(s.buf))
  }

  /** Every line is where it should be, but bytes of the removed ones are missing. */
  ghost predicate Behind(s: Tsdb) {
    s.accepted == s.flushed + s.buf && |s.wire| < |Concat(s.flushed)|
  }

  lemma ClearedBehind(s: Tsdb, send: SendResult)
    requires Behind(s) || (Stream(s) && Delivered(send, Concat(s.buf)) != Concat(s.buf))
    ensures Behind(Cleared(s, send))
  {
    var q := Concat(s.buf);
    ConcatAppend(s.flushed, s.buf);
    assert |Delivered(send, q)| < |q| || Delivered(send, q) == q;
    assert s.accepted == (s.flushed + s.buf) + [];
  }

  /** The accounting of lines never breaks; that of bytes breaks exactly on a send that is not all or
      nothing: a partial send, or an errno other than EPIPE and EBADF, which clears the buffer all the same. */
  lemma FlushStream(s: Tsdb, a: Answers)
    requires Stream(s)
    ensures if GoodSend(s, a) then Stream(Flush(s, a).0) else Behind(Flush(s, a).0)
  {
    if s.buf != [] && s.tcp && a.isConnected && (a.send.Sent? || a.send.OtherErrno?) {
      assert Flush(s, a).0 == Cleared(s, a.send);
      DeliveredAll(a.send, Concat(s.buf));
      ClearedStream(s, a.send);
      if !GoodSend(s, a) {
        ClearedBehind(s, a.send);
      }
    }
  }

  /** Missing bytes never come back. */
  lemma FlushBehind(s: Tsdb, a: Answers)
    requires Behind(s)
    ensures Behind(Flush(s, a).0)
  {
    if s.buf != [] && s.tcp && a.isConnected && (a.send.Sent? || a.send.OtherErrno?) {
      assert Flush(s, a).0 == Cleared(s, a.send);
      ClearedBehind(s, a.send);
    }
  }

  /** The second flush of a message is tried. */
  predicate TriesAgain(p: Params, s: Tsdb, first: Answers) {
    |s.buf| >= p.bufSize && !Flush(s, first).1 && |s.buf| >= p.bufMaxSize
  }

  /** Every send of this event that is reached takes all or nothing. */
  ghost predicate GoodSends(p: Params, s: Tsdb, e: Event) {
    match e
    case Message(_, first, second) =>
      && (|s.buf| >= p.bufSize ==> GoodSend(s, first))
      && (TriesAgain(p, s, first) ==> GoodSend(Flush(s, first).0, second))
    case FlushTimer(answers) => GoodSend(s, answers)
    case _ => true
  }

  ghost predicate GoodRun(p: Params, events: seq<Event>) {
    events == [] || var n := |events| - 1; GoodRun(p, events[..n]) && GoodSends(p, Run(p, events[..n]), events[n])
  }

  lemma PushStream(s: Tsdb, line: string)
    ensures Stream(s) ==> Stream(Push(s, line))
    ensures Behind(s) ==> Behind(Push(s, line))
  {
  }

  /** A flush from a state whose bytes are complete, or not. */
  lemma FlushEither(s: Tsdb, a: Answers)
    requires Stream(s) || Behind(s)
    ensures if Stream(s) && GoodSend(s, a) then Stream(Flush(s, a).0) else Behind(Flush(s, a).0)
  {
    if Stream(s) {
      FlushStream(s, a);
    } else {
      FlushBehind(s, a);
    }
  }

  lemma SensorStream(p: Params, s: Tsdb, line: string, first: Answers, second: Answers)
    requires Stream(s) || Behind(s)
    ensures if Stream(s) && GoodSends(p, s, Message(line, first, second)) then Stream(Sensor(p, s, line, first, second))
            else Behind(Sensor(p, s, line, first, second))
  {
    PushStream(s, line);
    if |s.buf| >= p.bufSize {
      var (s1, ok1) := Flush(s, first);
      FlushEither(s, first);
      PushStream(s1, line);
      if TriesAgain(p, s, first) {
        FlushEither(s1, second);
        PushStream(Flush(s1, second).0, line);
      }
    }
  }

  lemma StepStream(p: Params, s: Tsdb, e: Event)
    requires Stream(s) || Behind(s)
    ensures if Stream(s) && GoodSends(p, s, e) then Stream(Step(p, s, e)) else Behind(Step(p, s, e))
  {
    match e
    case Message(line, first, second) => SensorStream(p, s, line, first, second);
    case FlushTimer(answers) => FlushEither(s.(flushArmed := false), answers);
    case ReconnectTimer(_) =>
    case StartUp(_) =>
  }

  lemma {:induction false} RunStream(p: Params, events: seq<Event>)
    ensures if GoodRun(p, events) then Stream(Run(p, events)) else Behind(Run(p, events))
  {
    if events != [] {
      var n := |events| - 1;
      RunStream(p, events[..n]);
      StepStream(p, Run(p, events[..n]), events[n]);
    }
  }

  /** After any run the peer has exactly the removed lines if and only if every send that was reached took
      all or nothing. */
  lemma StreamExactly(p: Params, events: seq<Event>)
    ensures Stream(Run(p, events)) <==> GoodRun(p, events)
  {
    RunStream(p, events);
  }

  lemma RunSnoc(p: Params, events: seq<Event>, e: Event)
    ensures Run(p, events + [e]) == Step(p, Run(p, events), e)
  {
    assert (events + [e])[..|events|] == events;
  }

  /** Start-up, one message, and a flush whose send fails with another errno. */
  function Vanishing(line: string, any: Answers): seq<Event> {
    [StartUp(true)] + [Message(line, any, any)] + [FlushTimer(Answers(true, OtherErrno, true))]
  }

  lemma FirstLine(p: Params, line: string, any: Answers)
    ensures Run(p, [StartUp(true)] + [Message(line, any, any)]) ==
              INITIAL.(tcp := true, buf := [line], accepted := [line], timerIsOn := true, flushArmed := true)
  {
    assert [] + [StartUp(true)] == [StartUp(true)];
    RunSnoc(p, [], StartUp(true));
    RunSnoc(p, [StartUp(true)], Message(line, any, any));
    assert [] + [line] == [line];
  }

  /** After these the line is neither buffered nor sent. */
  lemma LineVanishes(p: Params, line: string, any: Answers)
    requires line != ""
    ensures var s := Run(p, Vanishing(line, any)); s.accepted == [line] && s.buf == [] && s.wire == "" && !Stream(s)
  {
    var first := [StartUp(true)] + [Message(line, any, any)];
    FirstLine(p, line, any);
    RunSnoc(p, first, FlushTimer(Answers(true, OtherErrno, true)));
    assert Concat([line]) == line + Concat([]);
  }

  // ---- Lost lines.

  /** A flush of a buffer that is not empty fails. */
  predicate Refused(tcp: bool, a: Answers) {
    !tcp || !a.isConnected || a.send.BrokenPipe? || a.send.IoException? || a.send.OtherException?
  }

  /** Is there a stream after a flush that failed? */
  predicate StreamAfter(tcp: bool, a: Answers) {
    if tcp && a.isConnected && (a.send.BrokenPipe? || a.send.IoException?) then a.reconnectOk else tcp
  }

  /** The line of a message finds no room: both flushes fail on a buffer that has reached both sizes. */
  predicate NoRoom(p: Params, s: Tsdb, first: Answers, second: Answers) {
    && s.buf != [] && |s.buf| >= p.bufSize && |s.buf| >= p.bufMaxSize
    && Refused(s.tcp, first) && Refused(StreamAfter(s.tcp, first), second)
  }

  lemma FlushRefused(s: Tsdb, a: Answers)
    ensures Flush(s, a).1 <==> s.buf == [] || !Refused(s.tcp, a)
    ensures s.buf != [] && Refused(s.tcp, a) ==>
              var s' := Flush(s, a).0; s'.tcp == StreamAfter(s.tcp, a) && s'.flushed == s.flushed && s'.wire == s.wire
  {
  }

  /** A line is lost exactly then, and the buffer keeps all others. */
  lemma LineLostExactly(p: Params, s: Tsdb, line: string, first: Answers, second: Answers)
    ensures var s' := Sensor(p, s, line, first, second);
            if NoRoom(p, s, first, second) then s'.accepted == s.accepted && s'.buf == s.buf && s'.flushed == s.flushed
            else s'.accepted == s.accepted + [line] && s'.buf != [] && s'.buf[|s'.buf| - 1] == line
  {
    FlushRefused(s, first);
    FlushRefused(Flush(s, first).0, second);
  }

  /** Every outcome of a flush of a buffer that is not empty: the buffer goes, or all of it stays; a broken pipe
      and an I/O exception make a new stream, and only the latter asks for the reconnect timer. */
  lemma FlushExactly(s: Tsdb, a: Answers)
    requires s.buf != []
    ensures var (s', ok) := Flush(s, a);
            && ok == (s.tcp && a.isConnected && (a.send.Sent? || a.send.OtherErrno?)) && s'.accepted == s.accepted
            && if ok then
                 && s'.buf == [] && s'.flushed == s.flushed + s.buf && !s'.timerIsOn && !s'.flushArmed
                 && s'.tcp == s.tcp && s'.reconnectArmed == s.reconnectArmed
               else
                 && s'.buf == s.buf && s'.flushed == s.flushed && s'.wire == s.wire
                 && s'.timerIsOn == s.timerIsOn && s'.flushArmed == s.flushArmed
                 && if s.tcp && a.isConnected && !a.send.OtherException? then
                      && s'.tcp == a.reconnectOk
                      && s'.reconnectArmed == (s.reconnectArmed || (a.send.IoException? && !a.reconnectOk))
                    else s'.tcp == s.tcp && s'.reconnectArmed == s.reconnectArmed
  {
  }

  /** A flush of an empty buffer succeeds and only turns the flush timer off. */
  lemma FlushEmpty(s: Tsdb, a: Answers)
    requires s.buf == []
    ensures Flush(s, a) == (s.(timerIsOn := false, flushArmed := s.flushArmed && !s.timerIsOn), true)
  {
  }

  /** A flush that succeeds puts the first `count` bytes of the buffer on the wire, or none after an errno. */
  lemma FlushSends(s: Tsdb, a: Answers)
    requires s.buf != [] && !Refused(s.tcp, a)
    ensures var s', q := Flush(s, a).0, Concat(s.buf);
            && (a.send.Sent? ==> s'.wire == s.wire + if a.send.count < |q| then q[..a.send.count] else q)
            && (!a.send.Sent? ==> s'.wire == s.wire)
  {
    assert s.wire + "" == s.wire;
  }

  /** Every outcome of a message: which flush is tried, and where old lines and the new one are afterwards. */
  lemma SensorExactly(p: Params, s: Tsdb, line: string, first: Answers, second: Answers)
    ensures var s' := Sensor(p, s, line, first, second);
            if |s.buf| < p.bufSize then s'.buf == s.buf + [line] && s'.flushed == s.flushed && s'.tcp == s.tcp
            else if s.buf == [] || !Refused(s.tcp, first) then
              s'.buf == [line] && s'.flushed == s.flushed + s.buf && s'.tcp == s.tcp
            else if |s.buf| < p.bufMaxSize then
              s'.buf == s.buf + [line] && s'.flushed == s.flushed && s'.tcp == StreamAfter(s.tcp, first)
            else if !Refused(StreamAfter(s.tcp, first), second) then s'.buf == [line] && s'.flushed == s.flushed + s.buf
            else s'.buf == s.buf && s'.flushed == s.flushed
  {
    if s.buf != [] {
      FlushExactly(s, first);
      if Refused(s.tcp, first) {
        FlushExactly(Flush(s, first).0, second);
      }
    } else {
      assert s.flushed + [] == s.flushed && [] + [line] == [line];
    }
    assert [] + [line] == [line];
  }

  /** A line that is accepted finds the flush timer on, or turns it on. */
  lemma AcceptedTimer(s: Tsdb, line: string)
    ensures var s' := Push(s, line); s'.timerIsOn && s'.flushArmed == (s.flushArmed || !s.timerIsOn)
  {
  }

  /** The flush timer fires once: the buffer goes exactly if the flush is not refused. */
  lemma FlushTimerExactly(p: Params, s: Tsdb, a: Answers)
    requires s.buf != []
    ensures var s' := Step(p, s, FlushTimer(a));
            && !s'.flushArmed
            && if !Refused(s.tcp, a) then s'.buf == [] && s'.flushed == s.flushed + s.buf && !s'.timerIsOn
               else s'.buf == s.buf && s'.flushed == s.flushed && s'.timerIsOn == s.timerIsOn
  {
    FlushExactly(s.(flushArmed := false), a);
  }

  /** There is a stream after a reconnect or a start exactly if it worked; the reconnect timer runs until one does. */
  lemma ConnectsExactly(p: Params, s: Tsdb, ok: bool)
    ensures var s' := Step(p, s, ReconnectTimer(ok)); s'.tcp == ok && s'.reconnectArmed == (s.reconnectArmed && !ok)
    ensures var s' := Step(p, s, StartUp(ok)); s'.tcp == ok && s'.reconnectArmed == (s.reconnectArmed || !ok)
  {
  }

  /** The lines of all messages, and those that found no room. */
  function Offered(events: seq<Event>): seq<string> {
    if events == [] then []
    else
      var n := |events| - 1;
      if events[n].Message? then Offered(events[..n]) + [events[n].line] else Offered(events[..n])
  }

  function LostLines(p: Params, events: seq<Event>): seq<string> {
    if events == [] then []
    else
      var n := |events| - 1;
      var e, before := events[n], LostLines(p, events[..n]);
      if e.Message? && NoRoom(p, Run(p, events[..n]), e.first, e.second) then before + [e.line] else before
  }

  lemma StepAccepts(p: Params, s: Tsdb, e: Event)
    ensures Step(p, s, e).accepted ==
              if e.Message? && !NoRoom(p, s, e.first, e.second) then s.accepted + [e.line] else s.accepted
  {
    if e.Message? {
      LineLostExactly(p, s, e.line, e.first, e.second);
    }
  }

  /** A line more, accepted or lost. */
  lemma OneMoreLine(accepted: seq<string>, lost: seq<string>, offered: seq<string>, line: string)
    requires Subseq(accepted, offered) && multiset(offered) == multiset(accepted) + multiset(lost)
    ensures Subseq(accepted + [line], offered + [line]) && Subseq(accepted, offered + [line])
    ensures multiset(offered + [line]) == multiset(accepted + [line]) + multiset(lost)
    ensures multiset(offered + [line]) == multiset(accepted) + multiset(lost + [line])
  {
    SubseqSnoc(accepted, offered, line);
    SubseqCut(offered, [line], []);
    assert offered + [line] + [] == offered + [line] && offered + [] == offered;
    SubseqTrans(accepted, offered, offered + [line]);
  }

  /** In every run the accepted lines are the offered ones in their order without those that found no room. */
  lemma {:induction false} AcceptedInEveryRun(p: Params, events: seq<Event>)
    ensures Subseq(Run(p, events).accepted, Offered(events))
    ensures multiset(Offered(events)) == multiset(Run(p, events).accepted) + multiset(LostLines(p, events))
  {
    if events == [] {
      SubseqRefl<string>([]);
    } else {
      var n := |events| - 1;
      var s := Run(p, events[..n]);
      AcceptedInEveryRun(p, events[..n]);
      StepAccepts(p, s, events[n]);
      if events[n].Message? {
        OneMoreLine(s.accepted, LostLines(p, events[..n]), Offered(events[..n]), events[n].line);
      }
    }
  }

  // ---- Reading the stream.

  ghost predicate OneLine(s: string) {
    s != "" && s[|s| - 1] == '\n' && forall i | 0 <= i < |s| - 1 :: s[i] != '\n'
  }

  /** Cutting a text behind each newline. */
  function SplitLines(s: string): seq<string> {
    if s == "" then []
    else if s[0] == '\n' then ["\n"] + SplitLines(s[1..])
    else
      var rest := SplitLines(s[1..]);
      if rest == [] then [[s[0]]] else [[s[0]] + rest[0]] + rest[1..]
  }

  lemma {:induction false} SplitOne(line: string, rest: string)
    requires OneLine(line)
    ensures SplitLines(line + rest) == [line] + SplitLines(rest)
  {
    if |line| == 1 {
      assert (line + rest)[1..] == rest && line == "\n";
    } else {
      SplitOne(line[1..], rest);
      assert (line + rest)[1..] == line[1..] + rest;
      assert line == [line[0]] + line[1..];
      var more := [line[1..]] + SplitLines(rest);
      assert more[1..] == SplitLines(rest);
    }
  }

  lemma {:induction false} SplitConcat(lines: seq<string>)
    requires forall i | 0 <= i < |lines| :: OneLine(lines[i])
    ensures SplitLines(Concat(lines)) == lines
  {
    if lines != [] {
      SplitConcat(lines[1..]);
      SplitOne(lines[0], Concat(lines[1..]));
    }
  }

  ghost predicate LinesOnly(events: seq<Event>) {
    forall n | 0 <= n < |events| && events[n].Message? :: OneLine(events[n].line)
  }

  ghost predicate AllLines(lines: seq<string>) {
    forall i | 0 <= i < |lines| :: OneLine(lines[i])
  }

  lemma AcceptedGrows(p: Params, s: Tsdb, e: Event)
    ensures var s' := Step(p, s, e);
            s'.accepted == s.accepted || (e.Message? && s'.accepted == s.accepted + [e.line])
  {
  }

  lemma {:induction false} AcceptedAreLines(p: Params, events: seq<Event>)
    requires LinesOnly(events)
    ensures AllLines(Run(p, events).accepted)
  {
    if events != [] {
      var n := |events| - 1;
      AcceptedAreLines(p, events[..n]);
      AcceptedGrows(p, Run(p, events[..n]), events[n]);
    }
  }

  /** Over every run with all-or-nothing sends, cutting what the peer received at its newlines gives back the
      accepted lines in order, up to those still in the buffer. */
  lemma PeerReadsAcceptedLines(p: Params, events: seq<Event>)
    requires GoodRun(p, events) && LinesOnly(events)
    ensures var s := Run(p, events); SplitLines(s.wire) + s.buf == s.accepted
  {
    var s := Run(p, events);
    StreamExactly(p, events);
    AcceptedAreLines(p, events);
    forall i | 0 <= i < |s.flushed| ensures OneLine(s.flushed[i]) {
      assert s.flushed[i] == s.accepted[i];
    }
    SplitConcat(s.flushed);
  }

  // ---- The text of one line.

  /** setw(3) and setfill('0'). */
  function Pad3(s: string): string {
    if |s| >= 3 then s else if |s| == 2 then "0" + s else if |s| == 1 then "00" + s else "000" + s
  }

  /** The configured parts: measurement, project, common tags; the sensor's name and its own tags. */
  datatype Parts = Parts(measurement: string, project: string, tags: string, name: string, ownTags: string)

  function TimeStamp(sec: int, nsec: nat): string {
    ToDecimal(sec) + Pad3(ToDecimal(nsec / 1000000))
  }

  function Body(c: Parts, value: int, sec: int, nsec: nat): string {
    c.measurement + (if c.project != "" then ",project=" + c.project else "")
    + ",sensor=" + c.name
    + (if c.tags != "" then "," + c.tags else "") + (if c.ownTags != "" then "," + c.ownTags else "")
    + " value=" + ToDecimal(value) + " " + TimeStamp(sec, nsec)
  }

  function Line(c: Parts, value: int, sec: int, nsec: nat): string {
    Body(c, value, sec, nsec) + "\n"
  }

  predicate Clean(s: string) {
    '\n' !in s
  }

  lemma PadClean(s: string)
    requires Clean(s)
    ensures Clean(Pad3(s))
  {
  }

  lemma DecimalClean(n: int)
    ensures Clean(ToDecimal(n))
  {
    DecimalIsNumeral(n);
  }

  predicate CleanParts(c: Parts) {
    Clean(c.measurement) && Clean(c.project) && Clean(c.tags) && Clean(c.name) && Clean(c.ownTags)
  }

  /** Names and tags without a newline make one line. */
  lemma LineIsOneLine(c: Parts, value: int, sec: int, nsec: nat)
    requires CleanParts(c)
    ensures OneLine(Line(c, value, sec, nsec))
  {
    DecimalClean(value);
    DecimalClean(sec);
    DecimalClean(nsec / 1000000);
    PadClean(ToDecimal(nsec / 1000000));
    var body := Body(c, value, sec, nsec);
    assert Clean(body);
    forall i | 0 <= i < |body| ensures (body + "\n")[i] != '\n' {
      assert body[i] in body;
    }
  }

  /** The number a text of digits stands for. */
  function Number(s: string): int {
    if s == "" then 0
    else var n := |s| - 1; Number(s[..n]) * 10 + (s[n] as int - '0' as int)
  }

  lemma {:induction false} NumberOfDecimal(n: nat)
    ensures Number(ToDecimal(n)) == n
  {
    if n < 10 {
      assert ToDecimal(n)[..0] == "";
    } else {
      NumberOfDecimal(n / 10);
      assert ToDecimal(n)[..|ToDecimal(n)| - 1] == ToDecimal(n / 10);
    }
  }

  function DigitValue(c: char): int {
    c as int - '0' as int
  }

  lemma NumberAppend(s: string, c: char)
    ensures Number(s + [c]) == Number(s) * 10 + DigitValue(c)
  {
    assert (s + [c])[..|s|] == s;
  }

  lemma {:induction false} LeadingZero(s: string)
    ensures Number("0" + s) == Number(s)
  {
    if s == "" {
      NumberAppend("", '0');
      assert "0" + s == "" + ['0'];
    } else {
      var n := |s| - 1;
      assert "0" + s == ("0" + s[..n]) + [s[n]] && s == s[..n] + [s[n]];
      LeadingZero(s[..n]);
      NumberAppend("0" + s[..n], s[n]);
    }
  }

  lemma DecimalLength(n: nat)
    ensures |ToDecimal(n)| == if n < 10 then 1 else |ToDecimal(n / 10)| + 1
  {
  }

  /** Three padded digits: one text of three characters with the same number. */
  lemma PaddedDigits(ms: nat)
    requires ms < 1000
    ensures |Pad3(ToDecimal(ms))| == 3 && Number(Pad3(ToDecimal(ms))) == ms
  {
    var s := ToDecimal(ms);
    NumberOfDecimal(ms);
    DecimalLength(ms);
    DecimalLength(ms / 10);
    DecimalLength(ms / 100);
    assert ms / 10 / 10 == ms / 100;
    assert |s| == if ms < 10 then 1 else if ms < 100 then 2 else 3;
    LeadingZero(s);
    LeadingZero("0" + s);
    assert "00" + s == "0" + ("0" + s);
  }

  lemma ThreeMore(a: string, d: string)
    requires |d| == 3
    ensures Number(a + d) == Number(a) * 1000 + Number(d)
  {
    NumberAppend(a, d[0]);
    NumberAppend(a + [d[0]], d[1]);
    NumberAppend(a + [d[0]] + [d[1]], d[2]);
    assert a + d == a + [d[0]] + [d[1]] + [d[2]];
    NumberAppend("", d[0]);
    NumberAppend("" + [d[0]], d[1]);
    NumberAppend("" + [d[0]] + [d[1]], d[2]);
    assert d == "" + [d[0]] + [d[1]] + [d[2]];
  }

  /** A decimal number with its sign. */
  function SignedNumber(s: string): int {
    if s != "" && s[0] == '-' then -Number(s[1..]) else Number(s)
  }

  lemma SignedAs(s: string)
    requires s != ""
    ensures SignedNumber(s) == if s[0] == '-' then -Number(s[1..]) else Number(s)
  {
  }

  lemma PositiveStamp(sec: nat, nsec: nat)
    requires nsec < 1000000000
    ensures Number(TimeStamp(sec, nsec)) == sec * 1000 + nsec / 1000000
  {
    PaddedDigits(nsec / 1000000);
    NumberOfDecimal(sec);
    ThreeMore(ToDecimal(sec), Pad3(ToDecimal(nsec / 1000000)));
  }

  lemma HeadAndTail(a: string, b: string)
    requires a != ""
    ensures a + b != "" && (a + b)[0] == a[0] && (a + b)[1..] == a[1..] + b
  {
  }

  lemma NegativeText(n: int, pad: string)
    requires n < 0
    ensures SignedNumber(ToDecimal(n) + pad) == -Number(ToDecimal(-n) + pad)
  {
    MinusFirst(n);
    HeadAndTail(ToDecimal(n), pad);
    SignedAs(ToDecimal(n) + pad);
  }

  lemma PositiveText(n: nat, pad: string)
    ensures SignedNumber(ToDecimal(n) + pad) == Number(ToDecimal(n) + pad)
  {
    DigitsFirst(n);
    HeadAndTail(ToDecimal(n), pad);
    SignedAs(ToDecimal(n) + pad);
  }

  /** Seconds followed by the padded milliseconds read as milliseconds, exactly if the seconds are not
      negative or there are no milliseconds. */
  lemma TimeStampReads(sec: int, nsec: nat)
    requires nsec < 1000000000
    ensures SignedNumber(TimeStamp(sec, nsec)) == sec * 1000 + nsec / 1000000 <==> sec >= 0 || nsec / 1000000 == 0
  {
    if sec >= 0 {
      PositiveText(sec, Pad3(ToDecimal(nsec / 1000000)));
      PositiveStamp(sec, nsec);
    } else {
      NegativeText(sec, Pad3(ToDecimal(nsec / 1000000)));
      PositiveStamp(-sec, nsec);
    }
  }

  class BackendOpenTSDB {
    const params: Params
    const parts: map<ObjectId, Parts>
    var buf: seq<string>
    var tcp: bool
    var timerIsOn: bool
    var flushArmed: bool
    var reconnectArmed: bool
    ghost var flushed: seq<string>
    ghost var wire: string
    ghost var accepted: seq<string>

    ghost function State(): Tsdb
      reads this
    {
      Tsdb(buf, tcp, timerIsOn, flushArmed, reconnectArmed, flushed, wire, accepted)
    }

    constructor (params: Params, parts: map<ObjectId, Parts>)
      ensures State() == INITIAL && this.params == params && this.parts == parts
    {
      this.params, this.parts := params, parts;
      buf, tcp, timerIsOn, flushArmed, reconnectArmed := [], false, false, false, false;
      flushed, wire, accepted := [], "", [];
    }

    method FlushBuffer(a: Answers) returns (ok: bool)
      modifies this
      ensures (State(), ok) == Flush(old(State()), a)
    {
      if buf == [] {
        if timerIsOn {
          flushArmed := false;
          timerIsOn := false;
        }
        return true;
      }
      if !tcp || !a.isConnected {
        return false;
      }
      ghost var q := Concat(buf);
      match a.send {
        case BrokenPipe =>
          var _ := Reconnect(a.reconnectOk);
          return false;
        case IoException =>
          var done := Reconnect(a.reconnectOk);
          if !done {
            reconnectArmed := true;
          }
          return false;
        case OtherException =>
          return false;
        case _ =>
      }
      flushed := flushed + buf;
      wire := wire + Delivered(a.send, q);
      buf := [];
      flushArmed := false;
      timerIsOn := false;
      return true;
    }

    method Reconnect(reconnectOk: bool) returns (ok: bool)
      modifies this`tcp
      ensures ok == tcp == reconnectOk
    {
      tcp := false;
      if reconnectOk {
        tcp := true;
      }
      ok := tcp;
    }

    method SensorInfo(id: ObjectId, value: int, sec: int, nsec: nat, first: Answers, second: Answers)
      modifies this
      ensures State() ==
                if id in parts then Sensor(params, old(State()), Line(parts[id], value, sec, nsec), first, second)
                         else old(State())
    {
      if id in parts {
        if |buf| >= params.bufSize {
          var ok := FlushBuffer(first);
          if !ok {
            if |buf| >= params.bufMaxSize {
              ok := FlushBuffer(second);
              if !ok {
                return;
              }
            }
          }
        }
        var line := Line(parts[id], value, sec, nsec);
        buf := buf + [line];
        accepted := accepted + [line];
        if !timerIsOn {
          timerIsOn := true;
          flushArmed := true;
        }
      }
    }

    method OnFlushTimer(a: Answers)
      modifies this
      ensures State() == Step(params, old(State()), FlushTimer(a))
    {
      flushArmed := false;
      var _ := FlushBuffer(a);
    }

    method OnReconnectTimer(reconnectOk: bool)
      modifies this
      ensures State() == Step(params, old(State()), ReconnectTimer(reconnectOk))
    {
      var ok := Reconnect(reconnectOk);
      if ok {
        reconnectArmed := false;
      }
    }

    /** sysCommand for StartUp. */
    method OnStartUp(reconnectOk: bool)
      modifies this
      ensures State() == Step(params, old(State()), StartUp(reconnectOk))
    {
      var ok := Reconnect(reconnectOk);
      if !ok {
        reconnectArmed := true;
      }
    }
  }
}
