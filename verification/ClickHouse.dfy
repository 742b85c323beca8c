/** BackendClickHouse: sensor messages become rows with tags, kept in seven column buffers. */
module ClickHouse {
  import opened Sequences
  import opened TagText
  import opened TagsSetup
  import opened TagsConfig
  import opened TagsCache

  const ADMIN_ID: ObjectId := -2

  datatype Msg = Msg(id: ObjectId, value: Long, time: int, supplier: ObjectId, node: ObjectId)

  datatype Row = Row(time: int, value: Long, name: string, nodeName: string, producer: string,
                     tagKeys: seq<string>, tagValues: seq<string>)

  type TagPair = (string, string)

  /** clickhouseParams, globalTags, the object index, and the two sizes. */
  datatype Setup = Setup(params: map<ObjectId, seq<TagPair>>, globalTags: seq<TagPair>, objects: map<ObjectId, string>,
                         bufSize: nat, bufMaxSize: nat)

  /** `inserted` are the rows of all blocks the database took, `discarded` those of all buffers cleared
      without an insert, `accepted` all rows ever made. */
  datatype Buffer = Buffer(rows: seq<Row>, connectOk: bool, timerIsOn: bool, flushArmed: bool, reconnectArmed: bool,
                           inserted: seq<Row>, discarded: seq<Row>, accepted: seq<Row>)

  datatype Ch = Ch(buf: Buffer, config: Config)

  const EMPTY := Buffer([], false, false, false, false, [], [], [])

  function NameOf(u: Setup, id: ObjectId): string {
    if id in u.objects then u.objects[id] else ""
  }

  function Producer(u: Setup, id: ObjectId): string {
    if id in u.objects then u.objects[id] else if id == ADMIN_ID then "uniset-admin" else ""
  }

  function Pairs(dtags: seq<Tag>): seq<TagPair> {
    seq(|dtags|, i requires 0 <= i < |dtags| => (dtags[i].key, dtags[i].value))
  }

  /** Own tags, then global tags, then dynamic tags. */
  function AllTags(u: Setup, id: ObjectId, dtags: seq<Tag>): seq<TagPair>
    requires id in u.params
  {
    u.params[id] + u.globalTags + Pairs(dtags)
  }

  function KeysOf(tags: seq<TagPair>): seq<string> {
    seq(|tags|, i requires 0 <= i < |tags| => tags[i].0)
  }

  function ValuesOf(tags: seq<TagPair>): seq<string> {
    seq(|tags|, i requires 0 <= i < |tags| => tags[i].1)
  }

  function RowOf(u: Setup, m: Msg, dtags: seq<Tag>): Row
    requires m.id in u.params
  {
    var tags := AllTags(u, m.id, dtags);
    Row(m.time, m.value, NameOf(u, m.id), NameOf(u, m.node), Producer(u, m.supplier), KeysOf(tags), ValuesOf(tags))
  }

  predicate Known(u: Setup, m: Msg) {
    m.id in u.params && m.id in u.objects
  }

  /** Which part of a message is in which column: time and value as they are, the names of sensor, node and
      supplier, and the tags of the sensor, then the global ones, then the dynamic ones. */
  lemma RowColumns(u: Setup, m: Msg, dtags: seq<Tag>)
    requires Known(u, m)
    ensures var r, own := RowOf(u, m, dtags), u.params[m.id];
            && r.time == m.time && r.value == m.value && r.name == u.objects[m.id]
            && r.nodeName == (if m.node in u.objects then u.objects[m.node] else "")
            && (m.supplier in u.objects ==> r.producer == u.objects[m.supplier])
            && (m.supplier !in u.objects ==> r.producer == if m.supplier == ADMIN_ID then "uniset-admin" else "")
            && |r.tagKeys| == |r.tagValues| == |own| + |u.globalTags| + |dtags|
            && (forall i | 0 <= i < |own| :: r.tagKeys[i] == own[i].0 && r.tagValues[i] == own[i].1)
            && (forall i | 0 <= i < |u.globalTags| ::
                  r.tagKeys[|own| + i] == u.globalTags[i].0 && r.tagValues[|own| + i] == u.globalTags[i].1)
            && (forall i | 0 <= i < |dtags| ::
                  r.tagKeys[|own| + |u.globalTags| + i] == dtags[i].key
                  && r.tagValues[|own| + |u.globalTags| + i] == dtags[i].value)
  {
  }

  /** flushBuffer. */
  function Flushed(b: Buffer, insertOk: bool): (Buffer, bool) {
    if b.rows == [] || !b.connectOk || !insertOk then (b, false)
    else (b.(rows := [], inserted := b.inserted + b.rows), true)
  }

  function AskFlush(b: Buffer): Buffer {
    if b.timerIsOn then b else b.(timerIsOn := true, flushArmed := true)
  }

  function Discarded(b: Buffer): Buffer {
    b.(rows := [], discarded := b.discarded + b.rows)
  }

  function Appended(b: Buffer, row: Row): Buffer {
    b.(rows := b.rows + [row], accepted := b.accepted + [row])
  }

  /** The end of sensorInfo: flush a full buffer, discard an overfull one. */
  function Settled(u: Setup, b: Buffer, insertOk: bool): Buffer {
    if |b.rows| < u.bufSize then AskFlush(b)
    else
      var (b1, ok) := Flushed(b, insertOk);
      if ok then b1 else AskFlush(if |b1.rows| >= u.bufMaxSize then Discarded(b1) else b1)
  }

  /** The row that a message makes. */
  function NewRow(u: Setup, c: Config, m: Msg): Row
    requires Known(u, m)
  {
    RowOf(u, m, Got(Updated(c, m.id, m.value), m.id).1)
  }

  /** sensorInfo. */
  function Sensed(u: Setup, s: Ch, m: Msg, insertOk: bool): Ch {
    if !Known(u, m) then s
    else Ch(Settled(u, Appended(s.buf, NewRow(u, s.config, m)), insertOk),
        Got(Updated(s.config, m.id, m.value), m.id).0)
  }

  /** timerInfo for the flush timer, for the reconnect timer, and the start. */
  function FlushTime(b: Buffer, insertOk: bool, pingOk: bool): Buffer {
    var (b1, ok) := Flushed(b.(flushArmed := false), insertOk);
    FlushTimed(b1, ok, pingOk)
  }

  function FlushTimed(b: Buffer, ok: bool, pingOk: bool): Buffer {
    if ok then b.(timerIsOn := false)
    else if pingOk then b
    else b.(timerIsOn := false, flushArmed := false, reconnectArmed := true)
  }

  function ReconnectTime(b: Buffer, ok: bool, insertOk: bool): Buffer {
    var b1 := b.(connectOk := ok);
    if !ok then b1
    else Flushed(b1.(reconnectArmed := false), insertOk).0.(flushArmed := true, timerIsOn := true)
  }

  function Start(b: Buffer, ok: bool): Buffer {
    b.(connectOk := ok, reconnectArmed := b.reconnectArmed || !ok)
  }

  datatype Event = Message(m: Msg, insertOk: bool)
                 | FlushTimer(insertOk: bool, pingOk: bool)
                 | ReconnectTimer(ok: bool, insertOk: bool)
                 | StartUp(ok: bool)

  function Handle(u: Setup, s: Ch, e: Event): Ch {
    match e
    case Message(m, insertOk) => Sensed(u, s, m, insertOk)
    case FlushTimer(insertOk, pingOk) => s.(buf := FlushTime(s.buf, insertOk, pingOk))
    case ReconnectTimer(ok, insertOk) => s.(buf := ReconnectTime(s.buf, ok, insertOk))
    case StartUp(ok) => s.(buf := Start(s.buf, ok))
  }

  function Run(u: Setup, c: Config, events: seq<Event>): Ch {
    if events == [] then Ch(EMPTY, c) else var n := |events| - 1; Handle(u, Run(u, c, events[..n]), events[n])
  }

  // ---- Conservation and size.

  /** Inserted and buffered rows are accepted ones in their order; every other one was discarded. */
  ghost predicate Conserved(u: Setup, b: Buffer) {
    && Subseq(b.inserted + b.rows, b.accepted)
    && multiset(b.accepted) == multiset(b.inserted) + multiset(b.rows) + multiset(b.discarded)
    && (b.rows == [] || |b.rows| < u.bufSize || |b.rows| < u.bufMaxSize)
  }

  /** With this event a full buffer could not be flushed and is overfull. */
  predicate Overflows(u: Setup, b: Buffer, e: Event) {
    && e.Message? && Known(u, e.m)
    && |b.rows| + 1 >= u.bufSize && |b.rows| + 1 >= u.bufMaxSize && !(b.connectOk && e.insertOk)
  }

  /** The buffered rows and the one the event adds. */
  function AllRows(u: Setup, s: Ch, e: Event): seq<Row> {
    if e.Message? && Known(u, e.m) then s.buf.rows + [NewRow(u, s.config, e.m)] else s.buf.rows
  }

  /** A flush inserts all rows or none, and changes nothing else of them. */
  lemma FlushMoves(b: Buffer, insertOk: bool)
    ensures var b' := Flushed(b, insertOk).0;
            b'.inserted + b'.rows == b.inserted + b.rows && b'.discarded == b.discarded && b'.accepted == b.accepted
            && (b'.rows == [] || b' == b)
  {
    assert b.inserted + b.rows + [] == b.inserted + b.rows;
  }

  /** Rows are discarded exactly at an overflow, and then all of them: no timer and no reconnect loses any. */
  lemma DiscardsExactly(u: Setup, s: Ch, e: Event)
    ensures var b, b', all := s.buf, Handle(u, s, e).buf, AllRows(u, s, e);
            if Overflows(u, b, e) then b'.rows == [] && b'.inserted == b.inserted && b'.discarded == b.discarded + all
            else b'.discarded == b.discarded && b'.inserted + b'.rows == b.inserted + all && b'.rows in [[], all]
  {
    match e
    case Message(m, insertOk) =>
      if Known(u, m) {
        FlushMoves(Appended(s.buf, NewRow(u, s.config, m)), insertOk);
      }
    case FlushTimer(insertOk, _) => FlushMoves(s.buf.(flushArmed := false), insertOk);
    case ReconnectTimer(ok, insertOk) => FlushMoves(s.buf.(connectOk := ok, reconnectArmed := false), insertOk);
    case StartUp(_) =>
  }

  /** What one message does to the rows: a full buffer is inserted if the database takes it; if not, an
      overfull one is discarded; any other one is kept. */
  lemma SensedRows(u: Setup, b: Buffer, row: Row, insertOk: bool)
    ensures var b', all := Settled(u, Appended(b, row), insertOk), b.rows + [row];
            && b'.accepted == b.accepted + [row]
            && if |all| >= u.bufSize && b.connectOk && insertOk then
                 b'.rows == [] && b'.inserted == b.inserted + all && b'.discarded == b.discarded
               else if |all| >= u.bufSize && |all| >= u.bufMaxSize then
                 b'.rows == [] && b'.inserted == b.inserted && b'.discarded == b.discarded + all
               else b'.rows == all && b'.inserted == b.inserted && b'.discarded == b.discarded
  {
  }

  /** All buffered rows are inserted, and none is left. */
  ghost predicate InsertedAll(b: Buffer, b': Buffer) {
    b'.rows == [] && b'.inserted == b.inserted + b.rows
  }

  lemma InsertsExactly(b: Buffer, insertOk: bool)
    ensures var (b', ok) := Flushed(b, insertOk);
            && (InsertedAll(b, b') <==> b.rows == [] || (b.connectOk && insertOk))
            && (ok <==> b.rows != [] && b.connectOk && insertOk) && (!ok ==> b' == b)
  {
    assert |b.inserted + b.rows| == |b.inserted| + |b.rows|;
  }

  /** The flush timer: it inserts all rows exactly if there are none, or with a connection and an accepting
      database; after an insert the timer is off, and a failed ping asks for a new connection. */
  lemma FlushTimerExactly(u: Setup, s: Ch, insertOk: bool, pingOk: bool)
    ensures var b, b' := s.buf, Handle(u, s, FlushTimer(insertOk, pingOk)).buf;
            && (InsertedAll(b, b') <==> b.rows == [] || (b.connectOk && insertOk))
            && (InsertedAll(b, b') || (b'.rows == b.rows && b'.inserted == b.inserted))
            && b'.connectOk == b.connectOk && !b'.flushArmed
            && if b.rows != [] && b.connectOk && insertOk then !b'.timerIsOn && b'.reconnectArmed == b.reconnectArmed
               else if pingOk then b'.timerIsOn == b.timerIsOn && b'.reconnectArmed == b.reconnectArmed
               else !b'.timerIsOn && b'.reconnectArmed
  {
    InsertsExactly(s.buf.(flushArmed := false), insertOk);
  }

  /** The reconnect timer: the backend is connected afterwards exactly if it could connect, and then it inserts
      all rows exactly if there are none, or the database accepts, and asks for the flush timer. */
  lemma ReconnectTimerExactly(u: Setup, s: Ch, ok: bool, insertOk: bool)
    ensures var b, b' := s.buf, Handle(u, s, ReconnectTimer(ok, insertOk)).buf;
            && b'.connectOk == ok
            && (InsertedAll(b, b') <==> b.rows == [] || (ok && insertOk))
            && (InsertedAll(b, b') || (b'.rows == b.rows && b'.inserted == b.inserted))
            && if ok then !b'.reconnectArmed && b'.flushArmed && b'.timerIsOn
               else b'.reconnectArmed == b.reconnectArmed && b'.flushArmed == b.flushArmed
                    && b'.timerIsOn == b.timerIsOn
  {
    InsertsExactly(s.buf.(connectOk := ok, reconnectArmed := false), insertOk);
  }

  /** The start: connected exactly if it could connect, otherwise the reconnect timer runs. */
  lemma StartExactly(u: Setup, s: Ch, ok: bool)
    ensures var b, b' := s.buf, Handle(u, s, StartUp(ok)).buf;
            && b'.connectOk == ok && (!ok ==> b'.reconnectArmed) && (ok ==> b'.reconnectArmed == b.reconnectArmed)
            && b'.rows == b.rows && b'.inserted == b.inserted && b'.flushArmed == b.flushArmed
            && b'.timerIsOn == b.timerIsOn
  {
  }

  /** A message makes exactly one row if its sensor is configured and has a name, and does nothing otherwise. */
  lemma MessageAccepted(u: Setup, s: Ch, m: Msg, insertOk: bool)
    ensures var s' := Handle(u, s, Message(m, insertOk));
            if m.id in u.params && m.id in u.objects then
              |s'.buf.accepted| == |s.buf.accepted| + 1 && s'.buf.accepted[..|s.buf.accepted|] == s.buf.accepted
            else s' == s
  {
  }

  /** A message leaves the connection alone, and after it the flush timer is on unless all rows were inserted. */
  lemma MessageTimer(u: Setup, b: Buffer, row: Row, insertOk: bool)
    ensures var b', full := Settled(u, Appended(b, row), insertOk), |b.rows| + 1 >= u.bufSize;
            && b'.connectOk == b.connectOk && b'.reconnectArmed == b.reconnectArmed
            && if full && b.connectOk && insertOk then b'.timerIsOn == b.timerIsOn && b'.flushArmed == b.flushArmed
               else b'.timerIsOn && b'.flushArmed == (b.flushArmed || !b.timerIsOn)
  {
  }

  /** One row more, and the rows inserted, kept or discarded. */
  lemma OneMoreInOrder(inserted: seq<Row>, rows: seq<Row>, accepted: seq<Row>, row: Row)
    requires Subseq(inserted + rows, accepted)
    ensures Subseq(inserted + (rows + [row]), accepted + [row]) && Subseq(inserted, accepted + [row])
  {
    var all := rows + [row];
    SubseqSnoc(inserted + rows, accepted, row);
    assert inserted + rows + [row] == inserted + all;
    SubseqCut(inserted, all, []);
    assert inserted + all + [] == inserted + all && inserted + [] == inserted;
    SubseqTrans(inserted, inserted + all, accepted + [row]);
  }

  /** The count of one message, by what becomes of the buffer. */
  lemma OneMoreCounted(b: Buffer, b': Buffer, row: Row)
    requires multiset(b.accepted) == multiset(b.inserted) + multiset(b.rows) + multiset(b.discarded)
    requires b'.accepted == b.accepted + [row]
    requires var all := b.rows + [row];
             || (b'.rows == all && b'.inserted == b.inserted && b'.discarded == b.discarded)
             || (b'.rows == [] && b'.inserted == b.inserted + all && b'.discarded == b.discarded)
             || (b'.rows == [] && b'.inserted == b.inserted && b'.discarded == b.discarded + all)
    ensures multiset(b'.accepted) == multiset(b'.inserted) + multiset(b'.rows) + multiset(b'.discarded)
  {
    assert multiset(b.rows + [row]) == multiset(b.rows) + multiset([row]);
  }

  lemma SensedConserves(u: Setup, b: Buffer, row: Row, insertOk: bool)
    requires Conserved(u, b)
    ensures Conserved(u, Settled(u, Appended(b, row), insertOk))
  {
    var b' := Settled(u, Appended(b, row), insertOk);
    SensedRows(u, b, row, insertOk);
    OneMoreInOrder(b.inserted, b.rows, b.accepted, row);
    OneMoreCounted(b, b', row);
    if b'.rows == [] {
      assert b'.inserted + b'.rows == b'.inserted;
    }
  }

  /** Only rows matter: timers and the connection are not part of it. */
  lemma SameRowsConserve(u: Setup, b: Buffer, b': Buffer)
    requires Conserved(u, b)
    requires b'.rows == b.rows && b'.inserted == b.inserted && b'.discarded == b.discarded && b'.accepted == b.accepted
    ensures Conserved(u, b')
  {
  }

  lemma FlushConserves(u: Setup, b: Buffer, insertOk: bool)
    requires Conserved(u, b)
    ensures Conserved(u, Flushed(b, insertOk).0)
  {
    FlushMoves(b, insertOk);
  }

  lemma FlushTimeConserves(u: Setup, b: Buffer, insertOk: bool, pingOk: bool)
    requires Conserved(u, b)
    ensures Conserved(u, FlushTime(b, insertOk, pingOk))
  {
    var b0 := b.(flushArmed := false);
    SameRowsConserve(u, b, b0);
    FlushConserves(u, b0, insertOk);
    SameRowsConserve(u, Flushed(b0, insertOk).0, FlushTime(b, insertOk, pingOk));
  }

  lemma ReconnectConserves(u: Setup, b: Buffer, ok: bool, insertOk: bool)
    requires Conserved(u, b)
    ensures Conserved(u, ReconnectTime(b, ok, insertOk))
  {
    if ok {
      var b0 := b.(connectOk := true, reconnectArmed := false);
      SameRowsConserve(u, b, b0);
      FlushConserves(u, b0, insertOk);
      SameRowsConserve(u, Flushed(b0, insertOk).0, ReconnectTime(b, ok, insertOk));
    } else {
      SameRowsConserve(u, b, ReconnectTime(b, ok, insertOk));
    }
  }

  lemma StepConserves(u: Setup, s: Ch, e: Event)
    requires Conserved(u, s.buf)
    ensures Conserved(u, Handle(u, s, e).buf)
  {
    match e
    case Message(m, insertOk) =>
      if Known(u, m) {
        SensedConserves(u, s.buf, NewRow(u, s.config, m), insertOk);
      }
    case FlushTimer(insertOk, pingOk) => FlushTimeConserves(u, s.buf, insertOk, pingOk);
    case ReconnectTimer(ok, insertOk) => ReconnectConserves(u, s.buf, ok, insertOk);
    case StartUp(ok) => SameRowsConserve(u, s.buf, Start(s.buf, ok));
  }

  /** In every run the inserted rows, followed by the buffered ones, are accepted rows in their order, none
      twice; every accepted row is inserted, buffered or was discarded by an overflow; and no more rows are
      buffered than the larger size allows. */
  lemma {:induction false} ConservedInEveryRun(u: Setup, c: Config, events: seq<Event>)
    ensures Conserved(u, Run(u, c, events).buf)
  {
    if events == [] {
      SubseqRefl<Row>([]);
      assert EMPTY.inserted + EMPTY.rows == [];
    } else {
      var n := |events| - 1;
      ConservedInEveryRun(u, c, events[..n]);
      StepConserves(u, Run(u, c, events[..n]), events[n]);
    }
  }

  /** The rows that the overflows of a run discarded, one overflow behind the other. */
  function Losses(u: Setup, c: Config, events: seq<Event>): seq<Row> {
    if events == [] then []
    else
      var n := |events| - 1;
      var s := Run(u, c, events[..n]);
      Losses(u, c, events[..n]) + if Overflows(u, s.buf, events[n]) then AllRows(u, s, events[n]) else []
  }

  /** Over every run exactly these are the accepted rows that are neither inserted nor buffered. */
  lemma {:induction false} LossesInEveryRun(u: Setup, c: Config, events: seq<Event>)
    ensures Run(u, c, events).buf.discarded == Losses(u, c, events)
  {
    if events != [] {
      var n := |events| - 1;
      LossesInEveryRun(u, c, events[..n]);
      DiscardsExactly(u, Run(u, c, events[..n]), events[n]);
    }
  }

  // ---- The rows as a function of the messages.

  /** The messages of a run that make rows. */
  function Handled(u: Setup, events: seq<Event>): seq<Msg> {
    if events == [] then []
    else var n := |events| - 1;
      var before := Handled(u, events[..n]);
      if events[n].Message? && Known(u, events[n].m) then before + [events[n].m] else before
  }

  /** What the messages do to the tag configuration. */
  function Ops(msgs: seq<Msg>): seq<Op> {
    if msgs == [] then []
    else var n := |msgs| - 1; Ops(msgs[..n]) + [Update(msgs[n].id, msgs[n].value), Get(msgs[n].id)]
  }

  /** The value of the last message of a sensor, or the registered default. */
  function LastMessage(msgs: seq<Msg>, s: ObjectId, default: Long): Long {
    if msgs == [] then default
    else var n := |msgs| - 1; if msgs[n].id == s then msgs[n].value else LastMessage(msgs[..n], s, default)
  }

  function StatesFrom(c: Config, msgs: seq<Msg>): map<ObjectId, Long> {
    map s | s in c.smap :: LastMessage(msgs, s, c.smap[s])
  }

  /** The row the specification wants for the last of some messages. */
  function IdealRow(u: Setup, c: Config, msgs: seq<Msg>): Row
    requires msgs != [] && msgs[|msgs| - 1].id in u.params
  {
    var m := msgs[|msgs| - 1];
    RowOf(u, m, Ideal(c.(smap := StatesFrom(c, msgs)), m.id))
  }

  lemma {:induction false} LastOfOps(msgs: seq<Msg>, s: ObjectId, default: Long)
    ensures LastValue(Ops(msgs), s, default) == LastMessage(msgs, s, default)
  {
    if msgs != [] {
      var n := |msgs| - 1;
      var before, a, b := Ops(msgs[..n]), Update(msgs[n].id, msgs[n].value), Get(msgs[n].id);
      LastOfOps(msgs[..n], s, default);
      assert Ops(msgs) == (before + [a]) + [b];
      LastSnoc(before + [a], b, s, default);
      LastSnoc(before, a, s, default);
    }
  }

  lemma LastSnoc(ops: seq<Op>, op: Op, s: ObjectId, default: Long)
    ensures LastValue(ops + [op], s, default) ==
              if op.Update? && op.id == s then op.value else LastValue(ops, s, default)
  {
    assert (ops + [op])[..|ops|] == ops;
  }

  lemma OpsSnoc(c: Config, msgs: seq<Msg>, m: Msg)
    ensures After(c, Ops(msgs + [m])) == Got(Updated(After(c, Ops(msgs)), m.id, m.value), m.id).0
  {
    var a, b := Update(m.id, m.value), Get(m.id);
    assert (msgs + [m])[..|msgs|] == msgs;
    assert Ops(msgs + [m]) == (Ops(msgs) + [a]) + [b];
    AfterSnoc(c, Ops(msgs), a);
    AfterSnoc(c, Ops(msgs) + [a], b);
  }

  lemma LastWithMessage(msgs: seq<Msg>, m: Msg, s: ObjectId, default: Long)
    ensures LastValue(Ops(msgs) + [Update(m.id, m.value)], s, default) == LastMessage(msgs + [m], s, default)
  {
    LastOfOps(msgs, s, default);
    LastSnoc(Ops(msgs), Update(m.id, m.value), s, default);
    assert (msgs + [m])[..|msgs|] == msgs;
  }

  lemma StatesWithMessage(c: Config, msgs: seq<Msg>, m: Msg)
    ensures StatesAfter(c, Ops(msgs) + [Update(m.id, m.value)]) == StatesFrom(c, msgs + [m])
  {
    forall s | s in c.smap
      ensures LastValue(Ops(msgs) + [Update(m.id, m.value)], s, c.smap[s]) == LastMessage(msgs + [m], s, c.smap[s])
    {
      LastWithMessage(msgs, m, s, c.smap[s]);
    }
  }

  /** What a message should find in the tags, by the messages up to it. */
  lemma IdealFromMessages(c: Config, msgs: seq<Msg>, m: Msg)
    ensures After(c, Ops(msgs) + [Update(m.id, m.value)]) == Updated(After(c, Ops(msgs)), m.id, m.value)
    ensures Ideal(Updated(After(c, Ops(msgs)), m.id, m.value), m.id) ==
              Ideal(c.(smap := StatesFrom(c, msgs + [m])), m.id)
  {
    var ops := Ops(msgs) + [Update(m.id, m.value)];
    AfterSnoc(c, Ops(msgs), Update(m.id, m.value));
    IdealIsHistory(c, ops, m.id);
    StatesWithMessage(c, msgs, m);
  }

  /** The dynamic tags of one message, when the tag configuration is sound. */
  lemma TagsFromHistory(c: Config, msgs: seq<Msg>, m: Msg)
    requires Correct(c)
    ensures Got(Updated(After(c, Ops(msgs)), m.id, m.value), m.id).1 ==
              Ideal(c.(smap := StatesFrom(c, msgs + [m])), m.id)
  {
    var ops := Ops(msgs) + [Update(m.id, m.value)];
    IdealFromMessages(c, msgs, m);
    assert Got(After(c, ops), m.id).1 == Ideal(After(c, ops), m.id);
  }

  ghost predicate RowsMatch(u: Setup, c: Config, rows: seq<Row>, msgs: seq<Msg>) {
    |rows| == |msgs| && forall k | 0 <= k < |msgs| :: Known(u, msgs[k]) && rows[k] == IdealRow(u, c, msgs[..k + 1])
  }

  lemma OneMoreRow(u: Setup, c: Config, rows: seq<Row>, msgs: seq<Msg>, m: Msg, row: Row)
    requires RowsMatch(u, c, rows, msgs) && Known(u, m) && row == IdealRow(u, c, msgs + [m])
    ensures RowsMatch(u, c, rows + [row], msgs + [m])
  {
    var more := msgs + [m];
    forall k | 0 <= k < |more| ensures Known(u, more[k]) && (rows + [row])[k] == IdealRow(u, c, more[..k + 1]) {
      if k < |msgs| {
        assert more[..k + 1] == msgs[..k + 1];
      } else {
        assert more[..k + 1] == more;
      }
    }
  }

  lemma StepRows(u: Setup, s: Ch, e: Event)
    ensures var s' := Handle(u, s, e);
            if e.Message? && Known(u, e.m) then
              var g := Got(Updated(s.config, e.m.id, e.m.value), e.m.id);
              s'.buf.accepted == s.buf.accepted + [RowOf(u, e.m, g.1)] && s'.config == g.0
            else s'.buf.accepted == s.buf.accepted && s'.config == s.config
  {
  }

  lemma HistoryStep(u: Setup, c: Config, s: Ch, msgs: seq<Msg>, e: Event)
    requires Correct(c) && RowsMatch(u, c, s.buf.accepted, msgs) && s.config == After(c, Ops(msgs))
    requires e.Message? && Known(u, e.m)
    ensures var s' := Handle(u, s, e);
            RowsMatch(u, c, s'.buf.accepted, msgs + [e.m]) && s'.config == After(c, Ops(msgs + [e.m]))
  {
    TagsFromHistory(c, msgs, e.m);
    OpsSnoc(c, msgs, e.m);
    StepRows(u, s, e);
    var row := NewRow(u, s.config, e.m);
    assert (msgs + [e.m])[|msgs + [e.m]| - 1] == e.m;
    OneMoreRow(u, c, s.buf.accepted, msgs, e.m, row);
  }

  lemma {:induction false} CorrectRows(u: Setup, c: Config, events: seq<Event>)
    requires Correct(c)
    ensures RowsMatch(u, c, Run(u, c, events).buf.accepted, Handled(u, events))
    ensures Run(u, c, events).config == After(c, Ops(Handled(u, events)))
  {
    if events != [] {
      var n := |events| - 1;
      var s := Run(u, c, events[..n]);
      CorrectRows(u, c, events[..n]);
      if events[n].Message? && Known(u, events[n].m) {
        HistoryStep(u, c, s, Handled(u, events[..n]), events[n]);
      } else {
        StepRows(u, s, events[n]);
      }
    }
  }

  /** In every run the k-th row is a function of the first k + 1 handled messages and the configuration:
      each controlling sensor counts with its last value among them, or its registered default. */
  lemma RowsFromHistory(u: Setup, c: Config, events: seq<Event>)
    requires WellFormed(c) && Fresh(c) && Sound(c)
    ensures RowsMatch(u, c, Run(u, c, events).buf.accepted, Handled(u, events))
  {
    SoundIsCorrect(c);
    CorrectRows(u, c, events);
  }

  // ---- The columns.

  /** The seven columns, as they stand in the buffers and in an inserted block. */
  datatype Columns = Columns(timeStamp: seq<int>, value: seq<Long>, name: seq<string>, nodeName: seq<string>,
                             producer: seq<string>, tagKeys: seq<seq<string>>, tagValues: seq<seq<string>>)

  const NO_COLUMNS := Columns([], [], [], [], [], [], [])

  function AddRow(c: Columns, r: Row): Columns {
    Columns(c.timeStamp + [r.time], c.value + [r.value], c.name + [r.name], c.nodeName + [r.nodeName],
            c.producer + [r.producer], c.tagKeys + [r.tagKeys], c.tagValues + [r.tagValues])
  }

  function ColumnsOf(rows: seq<Row>): Columns {
    if rows == [] then NO_COLUMNS else var n := |rows| - 1; AddRow(ColumnsOf(rows[..n]), rows[n])
  }

  /** All seven columns have length `n`. */
  predicate OfLength(c: Columns, n: nat) {
    && |c.timeStamp| == |c.value| == |c.name| == |c.nodeName| == n
    && |c.producer| == |c.tagKeys| == |c.tagValues| == n
  }

  function RowAt(c: Columns, k: nat): Row
    requires OfLength(c, |c.timeStamp|) && k < |c.timeStamp|
  {
    Row(c.timeStamp[k], c.value[k], c.name[k], c.nodeName[k], c.producer[k], c.tagKeys[k], c.tagValues[k])
  }

  /** The columns of some rows have their length, and index k of every column is from row k. */
  lemma {:induction false} ColumnsByIndex(rows: seq<Row>)
    ensures OfLength(ColumnsOf(rows), |rows|)
    ensures forall k | 0 <= k < |rows| :: RowAt(ColumnsOf(rows), k) == rows[k]
  {
    if rows != [] {
      ColumnsByIndex(rows[..|rows| - 1]);
    }
  }

  /** Columns of one length are the columns of exactly one sequence of rows. */
  lemma ColumnsAreRows(a: seq<Row>, b: seq<Row>)
    requires ColumnsOf(a) == ColumnsOf(b)
    ensures a == b
  {
    ColumnsByIndex(a);
    ColumnsByIndex(b);
    forall k | 0 <= k < |a| ensures a[k] == b[k] {
      assert RowAt(ColumnsOf(a), k) == a[k] && RowAt(ColumnsOf(b), k) == b[k];
    }
  }

  lemma AppendRow(rows: seq<Row>, r: Row)
    ensures ColumnsOf(rows + [r]) == AddRow(ColumnsOf(rows), r)
  {
    assert (rows + [r])[..|rows|] == rows;
  }

  function Join(a: Columns, b: Columns): Columns {
    Columns(a.timeStamp + b.timeStamp, a.value + b.value, a.name + b.name, a.nodeName + b.nodeName,
            a.producer + b.producer, a.tagKeys + b.tagKeys, a.tagValues + b.tagValues)
  }

  /** The columns of all blocks one behind the other. */
  function Joined(blocks: seq<Columns>): Columns {
    if blocks == [] then NO_COLUMNS else var n := |blocks| - 1; Join(Joined(blocks[..n]), blocks[n])
  }

  /** The blocks hold exactly the inserted rows. */
  ghost predicate Hold(blocks: seq<Columns>, inserted: seq<Row>) {
    Joined(blocks) == ColumnsOf(inserted)
  }

  lemma JoinOneMore(a: Columns, b: Columns, r: Row)
    ensures Join(a, AddRow(b, r)) == AddRow(Join(a, b), r)
  {
    var x, y := Join(a, AddRow(b, r)), AddRow(Join(a, b), r);
    assert x.timeStamp == y.timeStamp && x.value == y.value && x.name == y.name && x.nodeName == y.nodeName;
    assert x.producer == y.producer && x.tagKeys == y.tagKeys && x.tagValues == y.tagValues;
  }

  lemma {:induction false} JoinRows(a: seq<Row>, b: seq<Row>)
    ensures Join(ColumnsOf(a), ColumnsOf(b)) == ColumnsOf(a + b)
  {
    if b == [] {
      assert a + b == a && Join(ColumnsOf(a), NO_COLUMNS) == ColumnsOf(a);
    } else {
      var n := |b| - 1;
      JoinRows(a, b[..n]);
      JoinOneMore(ColumnsOf(a), ColumnsOf(b[..n]), b[n]);
      assert b == b[..n] + [b[n]];
      assert a + (b[..n] + [b[n]]) == (a + b[..n]) + [b[n]];
      AppendRow(a + b[..n], b[n]);
    }
  }

  lemma HoldOneMore(blocks: seq<Columns>, inserted: seq<Row>, rows: seq<Row>)
    requires Hold(blocks, inserted)
    ensures Hold(blocks + [ColumnsOf(rows)], inserted + rows)
  {
    var more := blocks + [ColumnsOf(rows)];
    assert more[..|blocks|] == blocks;
    JoinRows(inserted, rows);
  }

  class BackendClickHouse {
    const setup: Setup
    const dyntags: ClickHouseTagsConfig
    var col: Columns  // colTimeStamp, colValue, colName, colNodeName, colProducer, arrTagKeys, arrTagValues
    var connect_ok: bool
    var timerIsOn: bool
    var flushArmed: bool
    var reconnectArmed: bool
    ghost var rows: seq<Row>
    ghost var blocks: seq<Columns>
    ghost var inserted: seq<Row>
    ghost var discarded: seq<Row>
    ghost var accepted: seq<Row>

    /** The columns are those of one sequence of rows, each with as many tag keys as tag values; the blocks
        are those of the inserted rows. */
    ghost predicate Columnar()
      reads this`col, this`rows, this`blocks, this`inserted
    {
      && col == ColumnsOf(rows) && |col.timeStamp| == |rows| && Hold(blocks, inserted)
      && forall k | 0 <= k < |rows| :: |rows[k].tagKeys| == |rows[k].tagValues|
    }

    ghost predicate Valid()
      reads this, dyntags
    {
      Columnar() && WellFormed(dyntags.State())
    }

    ghost function TheBuffer(): Buffer
      reads this
    {
      Buffer(rows, connect_ok, timerIsOn, flushArmed, reconnectArmed, inserted, discarded, accepted)
    }

    ghost function State(): Ch
      reads this, dyntags
    {
      Ch(TheBuffer(), dyntags.State())
    }

    constructor (setup: Setup, dyntags: ClickHouseTagsConfig)
      requires WellFormed(dyntags.State())
      ensures Valid() && this.setup == setup && this.dyntags == dyntags
      ensures State() == Ch(EMPTY, dyntags.State()) && blocks == []
    {
      this.setup, this.dyntags := setup, dyntags;
      col := NO_COLUMNS;
      connect_ok, timerIsOn, flushArmed, reconnectArmed := false, false, false, false;
      rows, blocks, inserted, discarded, accepted := [], [], [], [], [];
    }

    method ClearData()
      modifies this`col, this`rows
      ensures col == NO_COLUMNS && rows == []
    {
      col := col.(timeStamp := []);
      col := col.(value := []);
      col := col.(name := []);
      col := col.(nodeName := []);
      col := col.(producer := []);
      col := col.(tagKeys := []);
      col := col.(tagValues := []);
      rows := [];
    }

    /** flushBuffer: the block that is inserted has the columns of exactly the buffered rows. */
    method FlushBuffer(insertOk: bool) returns (ok: bool)
      requires Columnar()
      modifies this`col, this`rows
      modifies this`inserted, this`blocks
      ensures Columnar() && (TheBuffer(), ok) == Flushed(old(TheBuffer()), insertOk)
      ensures blocks == if ok then old(blocks) + [ColumnsOf(old(rows))] else old(blocks)
    {
      if |col.timeStamp| == 0 {
        return false;
      }
      if !connect_ok {
        return false;
      }
      if !insertOk {
        return false;
      }
      HoldOneMore(blocks, inserted, rows);
      blocks := blocks + [col];
      inserted := inserted + rows;
      ClearData();
      return true;
    }

    /** The appends of sensorInfo. */
    method AppendColumns(m: Msg, dtags: seq<Tag>)
      requires Columnar() && Known(setup, m)
      modifies this`col, this`rows
      modifies this`accepted
      ensures Columnar() && rows == old(rows) + [RowOf(setup, m, dtags)]
      ensures accepted == old(accepted) + [RowOf(setup, m, dtags)]
    {
      ghost var row := RowOf(setup, m, dtags);
      AppendRow(rows, row);
      col := col.(timeStamp := col.timeStamp + [m.time]);
      col := col.(value := col.value + [m.value]);
      col := col.(name := col.name + [setup.objects[m.id]]);
      col := col.(nodeName := col.nodeName + [if m.node in setup.objects then setup.objects[m.node] else ""]);
      col := col.(producer := col.producer + [if m.supplier in setup.objects then setup.objects[m.supplier]
                                              else if m.supplier == ADMIN_ID then "uniset-admin" else ""]);
      var keys, vals := TagArrays(setup.params[m.id], setup.globalTags, dtags);
      col := col.(tagKeys := col.tagKeys + [keys]);
      col := col.(tagValues := col.tagValues + [vals]);
      rows := rows + [row];
      accepted := accepted + [row];
    }

    /** The update of the dynamic tags in sensorInfo, and their reading. */
    method DynTags(m: Msg) returns (dtags: seq<Tag>)
      requires WellFormed(dyntags.State())
      modifies dyntags
      ensures WellFormed(dyntags.State())
      ensures dyntags.State() == Got(Updated(old(dyntags.State()), m.id, m.value), m.id).0
      ensures dtags == Got(Updated(old(dyntags.State()), m.id, m.value), m.id).1
    {
      UpdatedWellFormed(dyntags.State(), m.id, m.value);
      var _ := dyntags.UpdateTags(m.id, m.value);
      GotWellFormed(dyntags.State(), m.id);
      dtags := dyntags.GetTags(m.id);
    }

    /** sensorInfo. */
    method SensorInfo(m: Msg, insertOk: bool)
      requires Valid()
      modifies this, dyntags
      ensures Valid() && State() == Sensed(setup, old(State()), m, insertOk)
    {
      if m.id !in setup.params {
        return;
      }
      if m.id !in setup.objects {
        return;
      }
      ghost var before := TheBuffer();
      var dtags := DynTags(m);
      assert TheBuffer() == before;
      AppendColumns(m, dtags);
      assert TheBuffer() == Appended(before, RowOf(setup, m, dtags));
      Settle(insertOk);
    }

    method Settle(insertOk: bool)
      requires Columnar()
      modifies this`col, this`rows
      modifies this`inserted, this`discarded, this`blocks, this`timerIsOn, this`flushArmed
      ensures Columnar() && TheBuffer() == Settled(setup, old(TheBuffer()), insertOk)
    {
      if |col.timeStamp| >= setup.bufSize {
        var ok := FlushBuffer(insertOk);
        if ok {
          return;
        }
        if |col.timeStamp| >= setup.bufMaxSize {
          discarded := discarded + rows;
          ClearData();
        }
      }
      if !timerIsOn {
        timerIsOn := true;
        flushArmed := true;
      }
    }

    method OnFlushTimer(insertOk: bool, pingOk: bool)
      requires Columnar()
      modifies this`col, this`rows
      modifies this`inserted, this`blocks, this`timerIsOn, this`flushArmed, this`reconnectArmed
      ensures Columnar() && TheBuffer() == FlushTime(old(TheBuffer()), insertOk, pingOk)
    {
      flushArmed := false;
      ghost var before := TheBuffer();
      var ok := FlushBuffer(insertOk);
      ghost var after := TheBuffer();
      assert (after, ok) == Flushed(before, insertOk);
      if ok {
        timerIsOn := false;
      } else if !pingOk {
        flushArmed := false;
        timerIsOn := false;
        reconnectArmed := true;
      }
      assert TheBuffer() == FlushTimed(after, ok, pingOk);
    }

    method OnReconnectTimer(reconnectOk: bool, insertOk: bool)
      requires Columnar()
      modifies this`col, this`rows
      modifies this`inserted, this`blocks, this`timerIsOn, this`flushArmed, this`reconnectArmed, this`connect_ok
      ensures Columnar() && TheBuffer() == ReconnectTime(old(TheBuffer()), reconnectOk, insertOk)
    {
      connect_ok := reconnectOk;
      if connect_ok {
        reconnectArmed := false;
        var _ := FlushBuffer(insertOk);
        flushArmed := true;
        timerIsOn := true;
      }
    }

    /** sysCommand for StartUp. */
    method OnStartUp(reconnectOk: bool)
      requires Columnar()
      modifies this`connect_ok, this`reconnectArmed
      ensures Columnar() && TheBuffer() == Start(old(TheBuffer()), reconnectOk)
    {
      connect_ok := reconnectOk;
      if !connect_ok {
        reconnectArmed := true;
      }
    }
  }

  /** The three loops that fill the key and the value array of one row. */
  method TagArrays(own: seq<TagPair>, global: seq<TagPair>, dtags: seq<Tag>)
    returns (keys: seq<string>, vals: seq<string>)
    ensures keys == KeysOf(own + global + Pairs(dtags)) && vals == ValuesOf(own + global + Pairs(dtags))
  {
    keys, vals := [], [];
    for i := 0 to |own|
      invariant keys == KeysOf(own[..i]) && vals == ValuesOf(own[..i])
    {
      keys, vals := keys + [own[i].0], vals + [own[i].1];
    }
    for i := 0 to |global|
      invariant keys == KeysOf(own + global[..i]) && vals == ValuesOf(own + global[..i])
    {
      keys, vals := keys + [global[i].0], vals + [global[i].1];
    }
    ghost var fixed := own + global;
    assert own + global[..|global|] == fixed;
    for i := 0 to |dtags|
      invariant keys == KeysOf(fixed + Pairs(dtags)[..i]) && vals == ValuesOf(fixed + Pairs(dtags)[..i])
    {
      keys, vals := keys + [dtags[i].key], vals + [dtags[i].value];
    }
  }

  lemma UpdatedWellFormed(c: Config, id: ObjectId, value: Long)
    requires WellFormed(c)
    ensures WellFormed(Updated(c, id, value))
  {
    var c' := Updated(c, id, value);
    forall id, i | id in c'.tags && 0 <= i < |c'.tags[id]| ensures Bound(c', c'.tags[id][i]) {
      assert Bound(c, c.tags[id][i]);
    }
  }

  lemma GotWellFormed(c: Config, id: ObjectId)
    requires WellFormed(c)
    ensures WellFormed(Got(c, id).0)
  {
    if id in c.tags {
      MadeWellFormed(c, id, 0);
    }
  }

  lemma {:induction false} MadeWellFormed(c: Config, id: ObjectId, i: nat)
    requires WellFormed(c) && id in c.tags && i <= |c.tags[id]|
    ensures WellFormed(Made(c, id, i).0)
    decreases |c.tags[id]| - i
  {
    if i < |c.tags[id]| {
      RefreshInfoWellFormed(c, id, i);
      RefreshInfoEntries(c, id, i);
      MadeWellFormed(RefreshInfo(c, id, i), id, i + 1);
    }
  }
}
