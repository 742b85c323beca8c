/** The other half: backends whose configuration does not meet the condition have a run with a wrong row. */
module ClickHouseCoupledExact {
  import opened Text
  import opened TagText
  import opened TagsSetup
  import opened TagsConfig
  import opened TagsCache
  import opened TagsCacheExact
  import opened ClickHouse
  import opened ClickHouseRows
  import opened ClickHouseCoupled

  // ---- Configurations that messages reach.

  ghost predicate Reachable(u: Setup, c: Config, d: Config) {
    exists events: seq<Event> :: Run(u, c, events).config == d
  }

  /** What a message does to the tags. */
  function Send(d: Config, id: ObjectId, v: Long): Config {
    Got(Updated(d, id, v), id).0
  }

  lemma StartReachable(u: Setup, c: Config)
    ensures Reachable(u, c, c)
  {
    assert Run(u, c, []).config == c;
  }

  lemma SendReachable(u: Setup, c: Config, d: Config, id: ObjectId, v: Long)
    requires Reachable(u, c, d) && Recorded(u, id)
    ensures Reachable(u, c, Send(d, id, v))
  {
    var events: seq<Event> :| Run(u, c, events).config == d;
    var e := Message(Msg(id, v, 0, 0, 0), false);
    RunSnoc(u, c, events, e);
    StepRows(u, Run(u, c, events), e);
    assert Run(u, c, events + [e]).config == Send(d, id, v);
  }

  /** A sensor's own value, or any if it has no state: sending it again changes no state. */
  function Cur(d: Config, id: ObjectId): Long {
    if id in d.smap then d.smap[id] else 0
  }

  lemma CurIsNothing(d: Config, id: ObjectId)
    ensures Updated(d, id, Cur(d, id)) == d
  {
    if id in d.smap {
      assert d.smap[id := d.smap[id]] == d.smap;
    }
  }

  /** A wrong answer of getTags in a reachable configuration. */
  lemma WrongIsWrong(u: Setup, c: Config, d: Config, id: ObjectId)
    requires Reachable(u, c, d) && Recorded(u, id) && id in d.tags && Got(d, id).1 != Ideal(d, id)
    ensures !RowsCorrect(u, c)
  {
    var events: seq<Event> :| Run(u, c, events).config == d;
    CurIsNothing(d, id);
    WrongRow(u, c, events, Msg(id, Cur(d, id), 0, 0, 0));
  }

  // ---- What a message leaves behind.

  ghost predicate Synced(d: Config, id: ObjectId) {
    id in d.tags ==> SyncedFrom(d, id, 0)
  }

  lemma SendFacts(d: Config, id: ObjectId, v: Long)
    requires WellFormed(d)
    ensures var d' := Send(d, id, v);
            && WellFormed(d') && SameShape(d, d') && d'.smap == Updated(d, id, v).smap && Synced(d', id)
            && (forall id' | id' in d.tags && id' != id :: d'.tags[id'] == d.tags[id'])
  {
    var e := Updated(d, id, v);
    UpdatedWellFormed(d, id, v);
    assert SameShape(d, e);
    if id in e.tags {
      MadeSyncs(e, id, 0);
      SameShapeTrans(d, e, Made(e, id, 0).0);
    }
  }

  lemma {:induction false} NotDirty(c: Config, id: ObjectId, i: nat, s: string)
    requires forall j | i <= j && Reads(c, id, j, s) :: !c.Stale(c.tags[id][j])
    ensures !Dirty(c, id, i, s)
    decreases |c.List(id)| - i
  {
    if i < |c.List(id)| {
      NotDirty(c, id, i + 1, s);
    }
  }

  /** The templates of a column stay, and a side without plain template stays on. */
  ghost predicate Alike(a: Column, b: Column) {
    && b.orig == a.orig && b.vmin == a.vmin && b.vmax == a.vmax && |b.text| == |b.orig|
    && (a.on && FirstPlain(a.orig) == |a.orig| ==> b.on) && (!a.on ==> b == a)
  }

  lemma {:induction false} MadeAlike(c: Config, id: ObjectId, i: nat, s: string, k: int, side: Side)
    requires WellFormed(c) && id in c.tags && i <= |c.tags[id]| && HasRange(c, s, k)
    ensures HasRange(Made(c, id, i).0, s, k) && Alike(Col(c, s, k, side), Col(Made(c, id, i).0, s, k, side))
    decreases |c.tags[id]| - i
  {
    if i < |c.tags[id]| {
      assert Bound(c, c.tags[id][i]);
      RefreshInfoWellFormed(c, id, i);
      RefreshInfoEntries(c, id, i);
      RefreshInfoColumn(c, id, i, s, k, side);
      MadeAlike(RefreshInfo(c, id, i), id, i + 1, s, k, side);
    }
  }

  lemma SendAlike(d: Config, id: ObjectId, v: Long, s: string, k: int, side: Side)
    requires WellFormed(d) && HasRange(d, s, k)
    ensures HasRange(Send(d, id, v), s, k) && Alike(Col(d, s, k, side), Col(Send(d, id, v), s, k, side))
  {
    UpdatedWellFormed(d, id, v);
    if id in d.tags {
      MadeAlike(Updated(d, id, v), id, 0, s, k, side);
    }
  }

  /** A message of a sensor whose list does not read the section. */
  lemma SendElsewhere(d: Config, id: ObjectId, v: Long, s: string, k: int, side: Side)
    requires WellFormed(d) && HasRange(d, s, k) && !HasReader(d, id, s)
    ensures HasRange(Send(d, id, v), s, k) && Col(Send(d, id, v), s, k, side) == Col(d, s, k, side)
  {
    var e := Updated(d, id, v);
    UpdatedWellFormed(d, id, v);
    UpdatedSame(d, id, v);
    if id in d.tags {
      assert forall j :: !Reads(e, id, j, s) by {
        forall j ensures !Reads(e, id, j, s) {
          assert !Reads(d, id, j, s);
        }
      }
      MadeColumn(e, id, 0, s, k, side, 0);
      NotDirty(e, id, 0, s);
    }
  }

  // ---- A text that freezes.

  /** A frozen text that is not right for a value its range contains. */
  lemma FrozenWrong(u: Setup, c: Config, d: Config, id: ObjectId, i: nat, s: string, k: int, side: Side,
                    y: Long, j: nat)
    requires AllRecorded(u, d) && Reachable(u, c, d) && WellFormed(d) && Reads(d, id, i, s) && HasRange(d, s, k)
    requires var col := Col(d, s, k, side);
             !col.on && j < |col.orig| && col.vmin <= y <= col.vmax
                 && col.text[j] != Shown(col.orig[j], y, col.vmin, col.vmax)
    ensures !RowsCorrect(u, c)
  {
    var a := d.tags[id][i].sid;
    assert Bound(d, d.tags[id][i]);
    var e1 := Send(d, a, y);
    SendFacts(d, a, y);
    SendReachable(u, c, d, a, y);
    SendAlike(d, a, y, s, k, side);
    var e2 := Send(e1, id, Cur(e1, id));
    CurIsNothing(e1, id);
    SendFacts(e1, id, Cur(e1, id));
    SendReachable(u, c, e1, id, Cur(e1, id));
    SendAlike(e1, id, Cur(e1, id), s, k, side);
    WrongText(e2, id, i, s, k, side, j);
    WrongIsWrong(u, c, e2, id);
  }

  /** The first getTags of a list that reads the section writes it with the value of its first such entry. */
  lemma {:induction false} MadeTouch(c: Config, id: ObjectId, n: nat, i: nat, s: string, k: int, side: Side)
    requires WellFormed(c) && First(c, id, i, s) && n <= i && !c.tags[id][i].initOk && HasRange(c, s, k)
    requires FreshColumn(Col(c, s, k, side)) && FirstPlain(Col(c, s, k, side).orig) < |Col(c, s, k, side).orig|
    ensures HasRange(Made(c, id, n).0, s, k)
    ensures Col(Made(c, id, n).0, s, k, side) == Refresh(Col(c, s, k, side), c.Value(c.tags[id][i]))
    decreases i - n
  {
    var c' := RefreshInfo(c, id, n);
    assert Bound(c, c.tags[id][n]);
    RefreshInfoWellFormed(c, id, n);
    RefreshInfoEntries(c, id, n);
    RefreshInfoColumn(c, id, n, s, k, side);
    if n < i {
      RefreshKeeps(c, id, n);
      assert !Reads(c, id, n, s);
      MadeTouch(c', id, n + 1, i, s, k, side);
    } else {
      MadeAlike(c', id, n + 1, s, k, side);
    }
  }

  lemma SendTouch(c: Config, id: ObjectId, v: Long, i: nat, s: string, k: int, side: Side)
    requires WellFormed(c) && First(c, id, i, s) && !c.tags[id][i].initOk && HasRange(c, s, k)
    requires FreshColumn(Col(c, s, k, side)) && FirstPlain(Col(c, s, k, side).orig) < |Col(c, s, k, side).orig|
    ensures var d := Send(c, id, v);
            HasRange(d, s, k) && Col(d, s, k, side) ==
                Refresh(Col(c, s, k, side), Updated(c, id, v).Value(c.tags[id][i]))
  {
    var e := Updated(c, id, v);
    UpdatedWellFormed(c, id, v);
    UpdatedSame(c, id, v);
    assert First(e, id, i, s);
    MadeTouch(e, id, 0, i, s, k, side);
  }

  lemma {:induction false} FirstReader(c: Config, id: ObjectId, i: nat, s: string) returns (f: nat)
    requires Reads(c, id, i, s)
    ensures First(c, id, f, s)
  {
    if j :| 0 <= j < i && Reads(c, id, j, s) {
      f := FirstReader(c, id, j, s);
    } else {
      f := i;
    }
  }

  lemma ShownInjective(s: string, v: Long, w: Long, vmin: Long, vmax: Long)
    requires UsesValue(s) && v != w
    ensures Shown(s, v, vmin, vmax) != Shown(s, w, vmin, vmax)
  {
    var a, b := ToDecimal(v), ToDecimal(w);
    if a == b {
      DecimalInjective(v, w);
    } else if |a| == |b| {
      if Shown(s, v, vmin, vmax) == Shown(s, w, vmin, vmax) {
        RenderInjective(s, a, b, ToDecimal(vmin), ToDecimal(vmax));
      }
    } else {
      RenderGrows(s, if |a| < |b| then a else b, if |a| < |b| then b else a, ToDecimal(vmin), ToDecimal(vmax));
    }
  }

  lemma ShapeKeeps(u: Setup, c: Config, d: Config)
    requires SameShape(c, d)
    ensures AllRecorded(u, c) ==> AllRecorded(u, d)
    ensures forall id, i, s :: Reads(d, id, i, s) <==> Reads(c, id, i, s)
    ensures forall id, i, s | Reads(c, id, i, s) :: d.tags[id][i].sid == c.tags[id][i].sid
  {
  }

  /** A frozen side with a value that its range contains and that was not the first one. */
  lemma FrozenAt(u: Setup, c: Config, d: Config, id: ObjectId, i: nat, s: string, k: int, side: Side, x: Long, y: Long)
    requires WellFormed(c) && AllRecorded(u, c) && Reads(c, id, i, s) && HasRange(c, s, k)
    requires Reachable(u, c, d) && WellFormed(d) && SameShape(c, d) && HasRange(d, s, k)
    requires var col := Col(c, s, k, side);
             && FreshColumn(col) && Col(d, s, k, side) == Refresh(col, x) && !Steady(col) && col.vmin <= y <= col.vmax
             && (x != y || exists j :: FirstPlain(col.orig) < j < |col.orig| && HasPlaceholder(col.orig[j]))
    ensures !RowsCorrect(u, c)
  {
    var col := Col(c, s, k, side);
    var p := FirstPlain(col.orig);
    ShapeKeeps(u, c, d);
    if j :| p < j < |col.orig| && HasPlaceholder(col.orig[j]) {
      ShownPlain(col.orig[j], y, col.vmin, col.vmax);
      FrozenWrong(u, c, d, id, i, s, k, side, y, j);
    } else {
      var j :| 0 <= j < |col.orig| && j != p && if j < p then UsesValue(col.orig[j]) else HasPlaceholder(col.orig[j]);
      ShownInjective(col.orig[j], x, y, col.vmin, col.vmax);
      FrozenWrong(u, c, d, id, i, s, k, side, y, j);
    }
  }

  /** A side that is neither steady nor pinned. */
  lemma UnsteadyRows(u: Setup, c: Config, id: ObjectId, i: nat, s: string, k: int, side: Side)
    requires WellFormed(c) && Fresh(c) && AllRecorded(u, c) && Reads(c, id, i, s) && HasRange(c, s, k)
    requires !Steady(Col(c, s, k, side)) && !Pinned(c, s, Col(c, s, k, side))
    ensures !RowsCorrect(u, c)
  {
    var col := Col(c, s, k, side);
    assert FreshColumn(ColumnOf(c.tagsmap[s][k], side)) && Bound(c, c.tags[id][i]);
    if PinnedText(col) {
      if id', i' :| First(c, id', i', s) && (c.tags[id'][i'].sid == id' || !HasReader(c, c.tags[id'][i'].sid, s)) {
        MovedFirst(u, c, id, i, id', i', s, k, side);
      } else {
        var id', i' :| First(c, id', i', s) && c.Value(c.tags[id'][i']) != col.vmin;
        TouchNow(u, c, id, i, id', i', s, k, side, col.vmin);
      }
    } else {
      var f := FirstReader(c, id, i, s);
      var x := c.Value(c.tags[id][f]);
      TouchNow(u, c, id, i, id, f, s, k, side, if x == col.vmin then col.vmax else col.vmin);
    }
  }

  /** The section is written by a message that moves nothing. */
  lemma TouchNow(u: Setup, c: Config, id: ObjectId, i: nat, id': ObjectId, f: nat, s: string, k: int, side: Side,
                 y: Long)
    requires WellFormed(c) && Fresh(c) && AllRecorded(u, c) && Reads(c, id, i, s) && HasRange(c, s, k)
             && First(c, id', f, s)
    requires var col := Col(c, s, k, side);
             && FreshColumn(col) && !Steady(col) && col.vmin <= y <= col.vmax
             && (c.Value(c.tags[id'][f]) != y
                 || exists j :: FirstPlain(col.orig) < j < |col.orig| && HasPlaceholder(col.orig[j]))
    ensures !RowsCorrect(u, c)
  {
    var v := Cur(c, id');
    CurIsNothing(c, id');
    StartReachable(u, c);
    SendReachable(u, c, c, id', v);
    SendFacts(c, id', v);
    SendTouch(c, id', v, f, s, k, side);
    FrozenAt(u, c, Send(c, id', v), id, i, s, k, side, c.Value(c.tags[id'][f]), y);
  }

  /** The section is written first with a value that its controlling sensor was sent before. */
  lemma MovedFirst(u: Setup, c: Config, id: ObjectId, i: nat, id': ObjectId, f: nat, s: string, k: int, side: Side)
    requires WellFormed(c) && Fresh(c) && AllRecorded(u, c) && Reads(c, id, i, s) && HasRange(c, s, k)
    requires First(c, id', f, s) && (c.tags[id'][f].sid == id' || !HasReader(c, c.tags[id'][f].sid, s))
    requires FreshColumn(Col(c, s, k, side)) && !Steady(Col(c, s, k, side))
    ensures !RowsCorrect(u, c)
  {
    var col, b := Col(c, s, k, side), c.tags[id'][f].sid;
    var w := Other(col.vmin);
    assert Bound(c, c.tags[id'][f]) && Bound(c, c.tags[id][i]);
    StartReachable(u, c);
    SendReachable(u, c, c, b, w);
    SendFacts(c, b, w);
    if b == id' {
      SendTouch(c, b, w, f, s, k, side);
      FrozenAt(u, c, Send(c, b, w), id, i, s, k, side, w, col.vmin);
    } else {
      var d := Send(c, b, w);
      SendElsewhere(c, b, w, s, k, side);
      assert HasReader(c, id', s);
      ShapeKeeps(u, c, d);
      var v := Cur(d, id');
      CurIsNothing(d, id');
      SendReachable(u, c, d, id', v);
      SendFacts(d, id', v);
      assert First(d, id', f, s);
      SendTouch(d, id', v, f, s, k, side);
      SameShapeTrans(c, d, Send(d, id', v));
      FrozenAt(u, c, Send(d, id', v), id, i, s, k, side, w, col.vmin);
    }
  }

  // ---- A section that is shared.

  lemma Pass(u: Setup, c: Config, d: Config, ids: seq<ObjectId>, v: Long, s: string, k: int, side: Side)
    returns (d': Config)
    requires Reachable(u, c, d) && WellFormed(d) && HasRange(d, s, k) && forall x | x in ids :: Recorded(u, x)
    ensures Reachable(u, c, d') && WellFormed(d') && SameShape(d, d')
    ensures HasRange(d', s, k) && Alike(Col(d, s, k, side), Col(d', s, k, side))
    ensures forall y | y in d.smap :: d'.smap[y] == if y in ids then v else d.smap[y]
    ensures d'.smap == d.smap ==> forall y | y in ids || Synced(d, y) :: Synced(d', y)
  {
    d' := d;
    if ids != [] {
      var n := |ids| - 1;
      var e := Pass(u, c, d, ids[..n], v, s, k, side);
      assert ids == ids[..n] + [ids[n]];
      d' := Send(e, ids[n], v);
      SendReachable(u, c, e, ids[n], v);
      SendFacts(e, ids[n], v);
      SendAlike(e, ids[n], v, s, k, side);
      SameShapeTrans(d, e, d');
    }
  }

  /** Sending `v` to some sensors, twice: they are at `v`, and their lists are up to date. */
  lemma Settle(u: Setup, c: Config, ids: seq<ObjectId>, v: Long, s: string, k: int, side: Side) returns (d: Config)
    requires WellFormed(c) && HasRange(c, s, k) && forall x | x in ids :: Recorded(u, x)
    ensures Reachable(u, c, d) && WellFormed(d) && SameShape(c, d)
    ensures HasRange(d, s, k) && Alike(Col(c, s, k, side), Col(d, s, k, side))
    ensures forall x | x in ids :: (x in d.smap ==> d.smap[x] == v) && Synced(d, x)
  {
    StartReachable(u, c);
    var e := Pass(u, c, c, ids, v, s, k, side);
    d := Pass(u, c, e, ids, v, s, k, side);
    forall y | y in e.smap ensures d.smap[y] == e.smap[y] {
      assert y in c.smap;
    }
    assert d.smap == e.smap;
    SameShapeTrans(c, e, d);
  }

  /** A side that every substitution writes anew. */
  ghost predicate Writable(col: Column) {
    col.on && |col.text| == |col.orig| && FirstPlain(col.orig) == |col.orig|
  }

  lemma WritableShared(c: Config, s: string, k: int, side: Side) returns (j: nat)
    requires HasRange(c, s, k) && FreshColumn(Col(c, s, k, side)) && Steady(Col(c, s, k, side))
             && !ValueFree(Col(c, s, k, side))
    ensures Writable(Col(c, s, k, side)) && j < |Col(c, s, k, side).orig| && UsesValue(Col(c, s, k, side).orig[j])
  {
    var col := Col(c, s, k, side);
    var i :| 0 <= i < |col.orig| && UsesValue(col.orig[i]);
    j := i;
  }

  /** All stale entries of a list are controlled by `b`. */
  ghost predicate StaleBy(d: Config, id: ObjectId, b: ObjectId) {
    forall j | id in d.tags && 0 <= j < |d.tags[id]| && d.Stale(d.tags[id][j]) :: d.tags[id][j].sid == b
  }

  lemma MovedStale(d: Config, id: ObjectId, b: ObjectId, w: Long)
    requires Synced(d, id)
    ensures StaleBy(Updated(d, b, w), id, b)
  {
    var e := Updated(d, b, w);
    forall j | id in e.tags && 0 <= j < |e.tags[id]| && e.Stale(e.tags[id][j]) ensures e.tags[id][j].sid == b {
      assert !d.Stale(d.tags[id][j]);
    }
  }

  /** The tags of `id` are read while `b` is at `w`, and nothing else has moved. */
  lemma ReadAt(d: Config, id: ObjectId, b: ObjectId, w: Long, s: string, k: int, side: Side)
    requires WellFormed(d) && HasRange(d, s, k) && Writable(Col(d, s, k, side))
    requires b in d.smap && d.smap[b] == w && StaleBy(d, id, b)
    ensures var d' := Got(d, id).0;
            HasRange(d', s, k) && Alike(Col(d, s, k, side), Col(d', s, k, side)) && Writable(Col(d', s, k, side))
    ensures var d' := Got(d, id).0;
            Shows(Col(d, s, k, side), w) || (exists j :: Reads(d, id, j, s) && d.Stale(d.tags[id][j])) ==>
              Shows(Col(d', s, k, side), w)
  {
    if id in d.tags {
      MadeAlike(d, id, 0, s, k, side);
      MadeColumn(d, id, 0, s, k, side, w);
      RefreshIsShown(Col(d, s, k, side), w);
      if j :| Reads(d, id, j, s) && d.Stale(d.tags[id][j]) {
        DirtyAt(d, id, 0, s, j);
      }
    }
  }

  lemma RefreshIsShown(col: Column, w: Long)
    requires Writable(col)
    ensures Shows(Refresh(col, w), w)
  {
  }

  /** The end of a wrong run: a list that is up to date, at the lower bound, under a text of another value. */
  lemma StaleTextWrong(u: Setup, c: Config, d: Config, id: ObjectId, i: nat, s: string, k: int, side: Side,
                       w: Long, j: nat)
    requires AllRecorded(u, d) && Reachable(u, c, d) && WellFormed(d) && Reads(d, id, i, s) && HasRange(d, s, k)
             && Synced(d, id)
    requires var col := Col(d, s, k, side);
             && j < |col.orig| && UsesValue(col.orig[j]) && Shows(col, w) && w != col.vmin
             && d.tags[id][i].sid in d.smap && d.smap[d.tags[id][i].sid] == col.vmin
    ensures !RowsCorrect(u, c)
  {
    var col := Col(d, s, k, side);
    ShownInjective(col.orig[j], w, col.vmin, col.vmin, col.vmax);
    assert d.tagsmap[s][k].vmin <= d.tagsmap[s][k].vmax;
    WrongText(d, id, i, s, k, side, j);
    WrongIsWrong(u, c, d, id);
  }

  /** A message of `id` that moves nothing, while `b` is at `w`. */
  lemma ReadNow(u: Setup, c: Config, d: Config, id: ObjectId, b: ObjectId, w: Long, s: string, k: int, side: Side)
    returns (d': Config)
    requires Reachable(u, c, d) && Recorded(u, id) && WellFormed(d) && HasRange(d, s, k) && Writable(Col(d, s, k, side))
    requires b in d.smap && d.smap[b] == w && StaleBy(d, id, b)
    ensures Reachable(u, c, d') && WellFormed(d') && SameShape(d, d') && d'.smap == d.smap && Synced(d', id)
    ensures forall x | x in d.tags && x != id :: d'.tags[x] == d.tags[x]
    ensures HasRange(d', s, k) && Alike(Col(d, s, k, side), Col(d', s, k, side)) && Writable(Col(d', s, k, side))
    ensures Shows(Col(d, s, k, side), w) || (exists j :: Reads(d, id, j, s) && d.Stale(d.tags[id][j])) ==>
              Shows(Col(d', s, k, side), w)
  {
    CurIsNothing(d, id);
    d' := Send(d, id, Cur(d, id));
    SendReachable(u, c, d, id, Cur(d, id));
    SendFacts(d, id, Cur(d, id));
    ReadAt(d, id, b, w, s, k, side);
  }

  /** A message of `b` with a new value, from a state in which its list is up to date. */
  lemma Move(u: Setup, c: Config, d: Config, b: ObjectId, w: Long, s: string, k: int, side: Side) returns (d': Config)
    requires Reachable(u, c, d) && Recorded(u, b) && WellFormed(d) && HasRange(d, s, k) && Writable(Col(d, s, k, side))
    requires b in d.smap && Synced(d, b)
    ensures d' == Send(d, b, w) && Reachable(u, c, d') && WellFormed(d') && SameShape(d, d')
    ensures d'.smap == d.smap[b := w] && Synced(d', b)
    ensures forall x | x in d.tags && x != b :: d'.tags[x] == d.tags[x]
    ensures forall x | Synced(d, x) :: StaleBy(d', x, b)
    ensures HasRange(d', s, k) && Alike(Col(d, s, k, side), Col(d', s, k, side)) && Writable(Col(d', s, k, side))
    ensures d.smap[b] != w && (exists j :: Reads(d, b, j, s) && d.tags[b][j].sid == b) ==> Shows(Col(d', s, k, side), w)
  {
    var e := Updated(d, b, w);
    d' := Send(d, b, w);
    SendReachable(u, c, d, b, w);
    SendFacts(d, b, w);
    UpdatedWellFormed(d, b, w);
    UpdatedSame(d, b, w);
    MovedStale(d, b, b, w);
    ReadAt(e, b, b, w, s, k, side);
    if j :| d.smap[b] != w && Reads(d, b, j, s) && d.tags[b][j].sid == b {
      assert !d.Stale(d.tags[b][j]);
      assert Reads(e, b, j, s) && e.Stale(e.tags[b][j]);
    }
    forall x | Synced(d, x) ensures StaleBy(d', x, b) {
      StaleAfter(d, d', x, b, w);
    }
  }

  lemma StaleAfter(d: Config, d': Config, x: ObjectId, b: ObjectId, w: Long)
    requires Synced(d, x) && Synced(d', b) && d'.smap == d.smap[b := w] && d'.tags.Keys == d.tags.Keys
    requires x in d.tags && x != b ==> d'.tags[x] == d.tags[x]
    ensures StaleBy(d', x, b)
  {
    if x != b && x in d.tags {
      forall j | 0 <= j < |d'.tags[x]| && d'.Stale(d'.tags[x][j]) ensures d'.tags[x][j].sid == b {
        assert !d.Stale(d.tags[x][j]);
      }
    }
  }

  /** An entry that was up to date at another value of its sensor. */
  lemma MovedAway(d: Config, d': Config, id: ObjectId, i: nat, s: string, w: Long)
    requires Reads(d, id, i, s) && Reads(d', id, i, s) && d'.tags[id][i] == d.tags[id][i] && Synced(d, id)
    requires d'.Value(d.tags[id][i]) != d.Value(d.tags[id][i])
    ensures d'.Stale(d'.tags[id][i])
  {
    assert !d.Stale(d.tags[id][i]);
  }

  /** Some lists at `v`, and then their sensor `b` moves to `w`. */
  lemma SettleAndMove(u: Setup, c: Config, ids: seq<ObjectId>, b: ObjectId, v: Long, w: Long, s: string, k: int,
                      side: Side)
    returns (d: Config, d1: Config)
    requires WellFormed(c) && HasRange(c, s, k) && Writable(Col(c, s, k, side)) && forall x | x in ids :: Recorded(u, x)
    requires b in ids && b in c.smap && v != w
    ensures WellFormed(d) && SameShape(c, d) && HasRange(d, s, k) && Writable(Col(d, s, k, side))
    ensures forall x | x in ids :: (x in d.smap ==> d.smap[x] == v) && Synced(d, x)
    ensures Reachable(u, c, d1) && WellFormed(d1) && SameShape(c, d1) && d1.smap == d.smap[b := w] && Synced(d1, b)
    ensures HasRange(d1, s, k) && Alike(Col(c, s, k, side), Col(d1, s, k, side)) && Writable(Col(d1, s, k, side))
    ensures forall x | x in ids :: StaleBy(d1, x, b)
    ensures forall x | x in d.tags && x != b :: d1.tags[x] == d.tags[x]
    ensures (exists j :: Reads(d, b, j, s) && d.tags[b][j].sid == b) ==> Shows(Col(d1, s, k, side), w)
  {
    d := Settle(u, c, ids, v, s, k, side);
    d1 := Move(u, c, d, b, w, s, k, side);
    SameShapeTrans(c, d, d1);
  }

  /** Two entries with different sensors: the text of one is shown for the other. */
  lemma SharedRows(u: Setup, c: Config, id1: ObjectId, i1: nat, id2: ObjectId, i2: nat, s: string, k: int, side: Side)
    requires WellFormed(c) && Fresh(c) && AllRecorded(u, c) && Reads(c, id1, i1, s) && Reads(c, id2, i2, s)
             && HasRange(c, s, k)
    requires c.tags[id1][i1].sid != c.tags[id2][i2].sid
    requires Steady(Col(c, s, k, side)) && !ValueFree(Col(c, s, k, side))
    ensures !RowsCorrect(u, c)
  {
    var col, a, b := Col(c, s, k, side), c.tags[id1][i1].sid, c.tags[id2][i2].sid;
    assert FreshColumn(ColumnOf(c.tagsmap[s][k], side)) && Bound(c, c.tags[id1][i1]) && Bound(c, c.tags[id2][i2]);
    var j := WritableShared(c, s, k, side);
    var v, w, ids := col.vmin, Other(col.vmin), [a, b, id1, id2];
    assert ids[0] == a && ids[1] == b && ids[2] == id1 && ids[3] == id2;
    var d, d1 := SettleAndMove(u, c, ids, b, v, w, s, k, side);
    ShapeKeeps(u, c, d);
    ShapeKeeps(u, c, d1);
    if id2 != b {
      MovedAway(d, d1, id2, i2, s, w);
    }
    SharedEnd(u, c, d1, id1, i1, id2, i2, b, s, k, side, w, j);
  }

  lemma SharedEnd(u: Setup, c: Config, d1: Config, id1: ObjectId, i1: nat, id2: ObjectId, i2: nat, b: ObjectId,
                  s: string, k: int, side: Side, w: Long, j: nat)
    requires AllRecorded(u, d1) && Reachable(u, c, d1) && WellFormed(d1) && HasRange(d1, s, k)
             && Writable(Col(d1, s, k, side))
    requires Reads(d1, id1, i1, s) && Reads(d1, id2, i2, s) && b in d1.smap && d1.smap[b] == w
    requires StaleBy(d1, id1, b) && StaleBy(d1, id2, b) && (Shows(Col(d1, s, k, side), w) || d1.Stale(d1.tags[id2][i2]))
    requires var col, a := Col(d1, s, k, side), d1.tags[id1][i1].sid;
             j < |col.orig| && UsesValue(col.orig[j]) && w != col.vmin && a in d1.smap && d1.smap[a] == col.vmin
    ensures !RowsCorrect(u, c)
  {
    var d2 := ReadNow(u, c, d1, id2, b, w, s, k, side);
    ShapeKeeps(u, d1, d2);
    assert StaleBy(d2, id1, b);
    var d3 := ReadNow(u, c, d2, id1, b, w, s, k, side);
    ShapeKeeps(u, d2, d3);
    StaleTextWrong(u, c, d3, id1, i1, s, k, side, w, j);
  }

  /** Two lists under one sensor whose own list does not read the section: it moves and comes back unseen. */
  lemma HomelessRows(u: Setup, c: Config, id1: ObjectId, i1: nat, id2: ObjectId, i2: nat, s: string, k: int, side: Side)
    requires WellFormed(c) && Fresh(c) && AllRecorded(u, c) && Reads(c, id1, i1, s) && Reads(c, id2, i2, s)
             && HasRange(c, s, k)
    requires id1 != id2 && c.tags[id1][i1].sid == c.tags[id2][i2].sid && !HasReader(c, c.tags[id1][i1].sid, s)
    requires Steady(Col(c, s, k, side)) && !ValueFree(Col(c, s, k, side))
    ensures !RowsCorrect(u, c)
  {
    var col, a := Col(c, s, k, side), c.tags[id1][i1].sid;
    assert FreshColumn(ColumnOf(c.tagsmap[s][k], side)) && Bound(c, c.tags[id1][i1]);
    var j := WritableShared(c, s, k, side);
    var v, w, ids := col.vmin, Other(col.vmin), [a, id1, id2];
    assert ids[0] == a && ids[1] == id1 && ids[2] == id2 && a != id1 && a != id2;
    var d, d1 := SettleAndMove(u, c, ids, a, v, w, s, k, side);
    ShapeKeeps(u, c, d);
    ShapeKeeps(u, c, d1);
    MovedAway(d, d1, id2, i2, s, w);
    HomelessEnd(u, c, d, d1, id1, i1, id2, i2, a, s, k, side, v, w, j);
  }

  lemma HomelessEnd(u: Setup, c: Config, d: Config, d1: Config, id1: ObjectId, i1: nat, id2: ObjectId, i2: nat,
                    a: ObjectId, s: string, k: int, side: Side, v: Long, w: Long, j: nat)
    requires AllRecorded(u, d1) && Reachable(u, c, d1) && WellFormed(d1) && HasRange(d1, s, k)
             && Writable(Col(d1, s, k, side))
    requires Reads(d1, id1, i1, s) && Reads(d1, id2, i2, s) && d1.tags[id1][i1].sid == a && id1 != id2
             && !HasReader(d1, a, s)
    requires a in d.smap && d.smap[a] == v && d1.smap == d.smap[a := w] && v != w && Recorded(u, a)
    requires Synced(d1, a) && StaleBy(d1, id2, a) && d1.Stale(d1.tags[id2][i2])
    requires id1 in d.tags && d.tags[id1] == d1.tags[id1] && Synced(d, id1)
    requires var col := Col(d1, s, k, side); j < |col.orig| && UsesValue(col.orig[j]) && v == col.vmin
    ensures !RowsCorrect(u, c)
  {
    assert id1 != a && id2 != a;
    var d2 := ReadNow(u, c, d1, id2, a, w, s, k, side);
    ShapeKeeps(u, d1, d2);
    assert !HasReader(d2, a, s) && d2.tags[id1] == d.tags[id1];
    var d3 := Move(u, c, d2, a, v, s, k, side);
    ShapeKeeps(u, d2, d3);
    SendElsewhere(d2, a, v, s, k, side);
    assert d3.smap == d.smap && d3.tags[id1] == d.tags[id1];
    StaleTextWrong(u, c, d3, id1, i1, s, k, side, w, j);
  }

  /** The rows of every run of a backend are what the messages and the configuration say, if and only if each
      side of each section read is steady with one reader, no %v or a home, or is pinned to one value. */
  lemma RowsExactly(u: Setup, c: Config)
    requires WellFormed(c) && Fresh(c) && AllRecorded(u, c)
    ensures RowsCorrect(u, c) <==> CoupledSound(c)
  {
    if CoupledSound(c) {
      SoundRows(u, c);
    } else {
      var id, i, s, k, side :| Reads(c, id, i, s) && HasRange(c, s, k)
                               && !SteadyFor(c, s, Col(c, s, k, side)) && !Pinned(c, s, Col(c, s, k, side));
      if !Steady(Col(c, s, k, side)) {
        UnsteadyRows(u, c, id, i, s, k, side);
      } else if id', i' :| Reads(c, id', i', s) && c.tags[id'][i'].sid != c.tags[id][i].sid {
        SharedRows(u, c, id, i, id', i', s, k, side);
      } else {
        OneController(u, c, id, i, s, k, side);
      }
    }
  }

  lemma OneController(u: Setup, c: Config, id: ObjectId, i: nat, s: string, k: int, side: Side)
    requires WellFormed(c) && Fresh(c) && AllRecorded(u, c) && Reads(c, id, i, s) && HasRange(c, s, k)
    requires forall id', i' | Reads(c, id', i', s) :: c.tags[id'][i'].sid == c.tags[id][i].sid
    requires Steady(Col(c, s, k, side)) && !SteadyFor(c, s, Col(c, s, k, side))
    ensures !RowsCorrect(u, c)
  {
    var a := c.tags[id][i].sid;
    assert !Homed(c, s, a);
    var id1, i1, id2, i2 :| Reads(c, id1, i1, s) && Reads(c, id2, i2, s) && !(id1 == id2 && i1 == i2);
    HomelessRows(u, c, id1, i1, id2, i2, s, k, side);
  }

  // ---- The relation to the cache alone.

  /** What the cache answers rightly under all calls, a backend answers rightly. */
  lemma SoundIsCoupled(c: Config)
    requires Sound(c)
    ensures CoupledSound(c)
  {
    forall id, i, s, k, side | Reads(c, id, i, s) && HasRange(c, s, k) ensures SteadyFor(c, s, Col(c, s, k, side)) {
      if !ValueFree(Col(c, s, k, side)) {
        assert Single(c, s);
      }
    }
  }

  /** Every sensor that controls tags is recorded and has none itself, every sensor with tags is recorded. */
  ghost predicate Separate(u: Setup, c: Config) {
    && (forall s | s in c.smap :: Recorded(u, s) && s !in c.tags)
    && (forall id | id in c.tags :: Recorded(u, id))
  }

  /** Where controlling sensors and sensors with tags are apart the backend needs all that the cache needs. */
  lemma SeparateRows(u: Setup, c: Config)
    requires WellFormed(c) && Fresh(c) && Separate(u, c)
    ensures RowsCorrect(u, c) <==> Sound(c)
  {
    forall id, i | id in c.tags && 0 <= i < |c.tags[id]| ensures Recorded(u, c.tags[id][i].sid) {
      assert Bound(c, c.tags[id][i]);
    }
    RowsExactly(u, c);
    if Sound(c) {
      SoundIsCoupled(c);
    }
    if CoupledSound(c) {
      SeparateIsSound(u, c);
    }
  }

  lemma SeparateIsSound(u: Setup, c: Config)
    requires WellFormed(c) && Separate(u, c) && CoupledSound(c)
    ensures Sound(c)
  {
    forall id, i, s, k, side | Reads(c, id, i, s) && HasRange(c, s, k)
      ensures Steady(Col(c, s, k, side)) && (ValueFree(Col(c, s, k, side)) || Single(c, s))
    {
      var f := FirstReader(c, id, i, s);
      assert Bound(c, c.tags[id][f]) && !HasReader(c, c.tags[id][f].sid, s);
      forall a ensures !Homed(c, s, a) {
        assert Bound(c, c.tags[id][i]);
      }
    }
  }
}
