/** A wrong answer of getTags in a run of a backend, and the row it makes. */
module ClickHouseRows {
  import opened TagText
  import opened TagsSetup
  import opened TagsConfig
  import opened TagsCache
  import opened ClickHouse

  // ---- What a wrong answer of getTags does to a row.

  /** The same templates at the same places. */
  ghost predicate SameOrigs(a: seq<Tag>, b: seq<Tag>) {
    |a| == |b| && forall i | 0 <= i < |a| :: a[i].origKey == b[i].origKey && a[i].origValue == b[i].origValue
  }

  lemma SameOrigsConcat(a: seq<Tag>, b: seq<Tag>, x: seq<Tag>, y: seq<Tag>)
    requires SameOrigs(a, b) && SameOrigs(x, y)
    ensures SameOrigs(a + x, b + y)
  {
  }

  lemma {:induction false} RangesSameOrigs(rs: seq<Range>, value: Long)
    ensures SameOrigs(ShowRanges(rs, value), IdealRanges(rs, value))
  {
    if rs != [] {
      RangesSameOrigs(rs[1..], value);
      var a := if rs[0].CheckInRange(value) then rs[0].tags else [];
      var b := if rs[0].CheckInRange(value) then IdealTags(rs[0], value) else [];
      SameOrigsConcat(a, b, ShowRanges(rs[1..], value), IdealRanges(rs[1..], value));
    }
  }

  lemma InfoSameOrigs(c: Config, t: TagsInfo)
    ensures SameOrigs(ShowInfo(c, t), IdealInfo(c, t))
  {
    RangesSameOrigs(c.Ranges(t.section), c.Value(t));
  }

  /** The answer and the specification differ in substituted texts only. */
  lemma {:induction false} MadeSameOrigs(c: Config, id: ObjectId, i: nat)
    requires id in c.tags && i <= |c.tags[id]|
    ensures SameOrigs(Made(c, id, i).1, IdealFrom(c, id, i))
    decreases |c.tags[id]| - i
  {
    if i < |c.tags[id]| {
      var c' := RefreshInfo(c, id, i);
      RefreshInfoEntries(c, id, i);
      MadeSameOrigs(c', id, i + 1);
      InfoSameOrigs(c', c'.tags[id][i]);
      IdealFromStable(c, id, i, id, i, c.smap);
      assert c.(smap := c.smap) == c && c'.(smap := c.smap) == c';
      SameOrigsConcat(ShowInfo(c', c'.tags[id][i]), IdealInfo(c', c'.tags[id][i]),
                      Made(c', id, i + 1).1, IdealFrom(c', id, i + 1));
    }
  }

  /** A row shows whether its dynamic tags are right. */
  lemma RowsTell(u: Setup, m: Msg, a: seq<Tag>, b: seq<Tag>)
    requires m.id in u.params && SameOrigs(a, b) && a != b
    ensures RowOf(u, m, a) != RowOf(u, m, b)
  {
    var x, y := AllTags(u, m.id, a), AllTags(u, m.id, b);
    var fixed := |u.params[m.id] + u.globalTags|;
    var i :| 0 <= i < |a| && a[i] != b[i];
    assert x[fixed + i] == (a[i].key, a[i].value) && y[fixed + i] == (b[i].key, b[i].value);
    assert KeysOf(x)[fixed + i] == a[i].key && KeysOf(y)[fixed + i] == b[i].key;
    assert ValuesOf(x)[fixed + i] == a[i].value && ValuesOf(y)[fixed + i] == b[i].value;
  }

  // ---- In a run.

  lemma RunSnoc(u: Setup, c: Config, events: seq<Event>, e: Event)
    ensures Run(u, c, events + [e]) == Handle(u, Run(u, c, events), e)
  {
    assert (events + [e])[..|events|] == events;
  }

  lemma {:induction false} ConfigFromMessages(u: Setup, c: Config, events: seq<Event>)
    ensures Run(u, c, events).config == After(c, Ops(Handled(u, events)))
  {
    if events != [] {
      var n := |events| - 1;
      ConfigFromMessages(u, c, events[..n]);
      StepRows(u, Run(u, c, events[..n]), events[n]);
      if events[n].Message? && Known(u, events[n].m) {
        OpsSnoc(c, Handled(u, events[..n]), events[n].m);
      }
    }
  }

  ghost predicate RowsCorrect(u: Setup, c: Config) {
    forall events: seq<Event> :: RowsMatch(u, c, Run(u, c, events).buf.accepted, Handled(u, events))
  }

  /** A message whose dynamic tags are wrong makes a row that is wrong. */
  lemma WrongRow(u: Setup, c: Config, events: seq<Event>, m: Msg)
    requires Known(u, m)
    requires var d := Updated(Run(u, c, events).config, m.id, m.value);
             m.id in d.tags && Got(d, m.id).1 != Ideal(d, m.id)
    ensures !RowsCorrect(u, c)
  {
    var e, s, msgs := Message(m, false), Run(u, c, events), Handled(u, events);
    var d := Updated(s.config, m.id, m.value);
    var more := events + [e];
    assert more[..|events|] == events;
    assert Handled(u, more) == msgs + [m];
    RunSnoc(u, c, events, e);
    StepRows(u, s, e);
    ConfigFromMessages(u, c, events);
    IdealFromMessages(c, msgs, m);
    MadeSameOrigs(d, m.id, 0);
    RowsTell(u, m, Got(d, m.id).1, Ideal(d, m.id));
    if RowsMatch(u, c, Run(u, c, more).buf.accepted, msgs + [m]) {
      LastRow(u, c, s.buf.accepted, RowOf(u, m, Got(d, m.id).1), msgs, m);
    }
  }

  lemma LastRow(u: Setup, c: Config, rows: seq<Row>, row: Row, msgs: seq<Msg>, m: Msg)
    requires m.id in u.params && RowsMatch(u, c, rows + [row], msgs + [m])
    ensures row == RowOf(u, m, Ideal(c.(smap := StatesFrom(c, msgs + [m])), m.id))
  {
    var k := |msgs|;
    assert (msgs + [m])[k] == m && (msgs + [m])[..k + 1] == msgs + [m];
    assert (rows + [row])[k] == row;
  }
}
