/** Backends in which recorded sensors control tags of each other: the exact condition for their rows. A
    message of a sensor updates its state and reads its own tags, and nothing in between. */
module ClickHouseCoupled {
  import opened Text
  import opened TagText
  import opened TagsSetup
  import opened TagsConfig
  import opened TagsCache
  import opened ClickHouse
  import opened ClickHouseRows

  // ---- The condition.

  predicate Recorded(u: Setup, id: ObjectId) {
    id in u.params && id in u.objects
  }

  /** Every sensor with tags and every sensor that controls them is recorded. */
  ghost predicate AllRecorded(u: Setup, c: Config) {
    && (forall id | id in c.tags :: Recorded(u, id))
    && (forall id, i | id in c.tags && 0 <= i < |c.tags[id]| :: Recorded(u, c.tags[id][i].sid))
  }

  ghost predicate HasReader(c: Config, id: ObjectId, s: string) {
    exists i :: Reads(c, id, i, s)
  }

  /** At most one entry reads the section. */
  ghost predicate Single(c: Config, s: string) {
    forall id, i, id', i' | Reads(c, id, i, s) && Reads(c, id', i', s) :: id == id' && i == i'
  }

  /** All entries that read the section are controlled by one sensor, and its own list is among them: each
      of its messages writes the section anew. */
  ghost predicate Homed(c: Config, s: string, a: ObjectId) {
    HasReader(c, a, s) && forall id, i | Reads(c, id, i, s) :: c.tags[id][i].sid == a
  }

  ghost predicate SteadyFor(c: Config, s: string, col: Column) {
    Steady(col) && (ValueFree(col) || Single(c, s) || exists a :: Homed(c, s, a))
  }

  /** The first entry of a list that reads the section. */
  ghost predicate First(c: Config, id: ObjectId, i: int, s: string) {
    Reads(c, id, i, s) && forall j | 0 <= j < i :: !Reads(c, id, j, s)
  }

  /** A side whose texts freeze at the first substitution, for a single value, and with no template behind the
      plain one that would have to be substituted. */
  ghost predicate PinnedText(col: Column) {
    var p := FirstPlain(col.orig);
    p < |col.orig| && col.vmin == col.vmax && forall i | p < i < |col.orig| :: !HasPlaceholder(col.orig[i])
  }

  /** No sensor that is first to write the section can have moved before it is written. */
  ghost predicate PinnedBy(c: Config, s: string) {
    forall id, i | First(c, id, i, s) :: c.tags[id][i].sid != id && HasReader(c, c.tags[id][i].sid, s)
  }

  ghost predicate PinnedAt(c: Config, s: string, v: Long) {
    forall id, i | First(c, id, i, s) :: c.Value(c.tags[id][i]) == v
  }

  ghost predicate Pinned(c: Config, s: string, col: Column) {
    PinnedText(col) && PinnedBy(c, s) && PinnedAt(c, s, col.vmin)
  }

  ghost predicate CoupledSound(c: Config) {
    forall id, i, s, k, side | Reads(c, id, i, s) && HasRange(c, s, k) ::
      SteadyFor(c, s, Col(c, s, k, side)) || Pinned(c, s, Col(c, s, k, side))
  }

  // ---- An invariant of every run. `x` is the sensor whose message is handled, if any, and `n` the next
  // entry of its list.

  /** The entry by which the list of `a` reads the section is still to come. */
  ghost predicate Pending(c: Config, s: string, a: ObjectId, x: Option<ObjectId>, n: int) {
    x == Some(a) && exists j :: j >= n && Reads(c, a, j, s)
  }

  ghost predicate InvPrev(c: Config, s: string, col: Column) {
    ColumnOk(col) && forall id, i | Reads(c, id, i, s) && c.tags[id][i].initOk :: Shows(col, c.tags[id][i].prevValue)
  }

  ghost predicate InvHome(c: Config, s: string, col: Column, a: ObjectId, x: Option<ObjectId>, n: int) {
    && ColumnOk(col) && a in c.smap
    && (forall j | Reads(c, a, j, s) && c.tags[a][j].initOk ::
          if x == Some(a) && j >= n then Shows(col, c.tags[a][j].prevValue) else c.tags[a][j].prevValue == c.smap[a])
    && (Pending(c, s, a, x, n) || forall id, i | Reads(c, id, i, s) && c.tags[id][i].initOk :: Shows(col, c.smap[a]))
  }

  ghost predicate Untouched(c: Config, s: string, col: Column, x: Option<ObjectId>, n: int) {
    && FreshColumn(col) && (forall id, i | Reads(c, id, i, s) :: !c.tags[id][i].initOk)
    && (x.Some? ==> forall j | 0 <= j < n :: !Reads(c, x.value, j, s))
    && (forall id, i | First(c, id, i, s) && x != Some(c.tags[id][i].sid) :: c.Value(c.tags[id][i]) == col.vmin)
  }

  ghost predicate InvPin(c: Config, s: string, col: Column, x: Option<ObjectId>, n: int) {
    (!col.on && Shows(col, col.vmin)) || Untouched(c, s, col, x, n)
  }

  ghost predicate ColInv(c: Config, s: string, col: Column, x: Option<ObjectId>, n: int) {
    || (Steady(col) && (ValueFree(col) || Single(c, s)) && InvPrev(c, s, col))
    || (Steady(col) && exists a :: Homed(c, s, a) && InvHome(c, s, col, a, x, n))
    || (PinnedText(col) && PinnedBy(c, s) && InvPin(c, s, col, x, n))
  }

  ghost predicate RunInv(c: Config, x: Option<ObjectId>, n: int) {
    forall id, i, s, k, side | Reads(c, id, i, s) && HasRange(c, s, k) :: ColInv(c, s, Col(c, s, k, side), x, n)
  }

  lemma FreshInv(c: Config)
    requires WellFormed(c) && Fresh(c) && CoupledSound(c)
    ensures RunInv(c, None, 0)
  {
    forall id, i, s, k, side | Reads(c, id, i, s) && HasRange(c, s, k)
      ensures ColInv(c, s, Col(c, s, k, side), None, 0)
    {
      assert FreshColumn(ColumnOf(c.tagsmap[s][k], side));
      var col := Col(c, s, k, side);
      if a :| Steady(col) && Homed(c, s, a) {
        assert Bound(c, c.tags[id][i]);
        assert InvHome(c, s, col, a, None, 0);
      }
    }
  }

  lemma UpdatedSame(c: Config, y: ObjectId, v: Long)
    requires WellFormed(c)
    ensures var d := Updated(c, y, v);
            d.tags == c.tags && d.tagsmap == c.tagsmap && d.smap.Keys == c.smap.Keys
            && (forall s | s in c.smap && s != y :: d.smap[s] == c.smap[s])
    ensures forall id, i, s :: Reads(Updated(c, y, v), id, i, s) <==> Reads(c, id, i, s)
  {
  }

  lemma BeginColumn(c: Config, s: string, col: Column, y: ObjectId, v: Long)
    requires WellFormed(c) && ColInv(c, s, col, None, 0)
    ensures ColInv(Updated(c, y, v), s, col, Some(y), 0)
  {
    var d := Updated(c, y, v);
    UpdatedSame(c, y, v);
    if a :| Steady(col) && Homed(c, s, a) && InvHome(c, s, col, a, None, 0) {
      assert Homed(d, s, a);
      var j :| Reads(c, a, j, s);
      assert Reads(d, a, j, s);
      assert InvHome(d, s, col, a, Some(y), 0);
    } else if PinnedText(col) && PinnedBy(c, s) && InvPin(c, s, col, None, 0) {
      assert PinnedBy(d, s) by {
        forall id, i | First(d, id, i, s) ensures d.tags[id][i].sid != id && HasReader(d, d.tags[id][i].sid, s) {
          assert First(c, id, i, s);
          var j :| Reads(c, c.tags[id][i].sid, j, s);
          assert Reads(d, d.tags[id][i].sid, j, s);
        }
      }
      if Untouched(c, s, col, None, 0) {
        forall id, i | First(d, id, i, s) && Some(y) != Some(d.tags[id][i].sid)
          ensures d.Value(d.tags[id][i]) == col.vmin
        {
          assert First(c, id, i, s);
        }
        assert Untouched(d, s, col, Some(y), 0);
      }
    }
  }

  lemma BeginInv(c: Config, y: ObjectId, v: Long)
    requires WellFormed(c) && RunInv(c, None, 0)
    ensures RunInv(Updated(c, y, v), Some(y), 0)
  {
    var d := Updated(c, y, v);
    UpdatedSame(c, y, v);
    forall id, i, s, k, side | Reads(d, id, i, s) && HasRange(d, s, k)
      ensures ColInv(d, s, Col(d, s, k, side), Some(y), 0)
    {
      assert Reads(c, id, i, s) && HasRange(c, s, k);
      BeginColumn(c, s, Col(c, s, k, side), y, v);
    }
  }

  lemma EndInv(c: Config, x: ObjectId)
    requires RunInv(c, Some(x), |c.List(x)|)
    ensures RunInv(c, None, 0)
  {
    forall id, i, s, k, side | Reads(c, id, i, s) && HasRange(c, s, k)
      ensures ColInv(c, s, Col(c, s, k, side), None, 0)
    {
      EndColumn(c, s, Col(c, s, k, side), x);
    }
  }

  lemma EndColumn(c: Config, s: string, col: Column, x: ObjectId)
    requires ColInv(c, s, col, Some(x), |c.List(x)|)
    ensures ColInv(c, s, col, None, 0)
  {
    if a :| Steady(col) && Homed(c, s, a) && InvHome(c, s, col, a, Some(x), |c.List(x)|) {
      assert InvHome(c, s, col, a, None, 0);
    } else if PinnedText(col) && PinnedBy(c, s) && Untouched(c, s, col, Some(x), |c.List(x)|) {
      forall id, i | First(c, id, i, s) ensures c.Value(c.tags[id][i]) == col.vmin {
        if c.tags[id][i].sid == x {
          var j :| Reads(c, x, j, s);
        }
      }
      assert Untouched(c, s, col, None, 0);
    }
  }

  // ---- One entry.

  lemma RefreshKeeps(c: Config, x: ObjectId, i: nat)
    requires x in c.tags && i < |c.tags[x]|
    ensures var c' := RefreshInfo(c, x, i);
            && (forall id, j, s :: Reads(c', id, j, s) <==> Reads(c, id, j, s))
            && (forall id, j, s | Reads(c, id, j, s) :: c'.tags[id][j].sid == c.tags[id][j].sid)
            && (forall id, j, s :: First(c', id, j, s) <==> First(c, id, j, s))
            && (forall id, s :: HasReader(c', id, s) <==> HasReader(c, id, s))
            && c'.smap == c.smap
  {
    RefreshInfoEntries(c, x, i);
    RefreshInfoReads(c, x, i);
  }

  lemma StepPrev(c: Config, s: string, col: Column, x: ObjectId, i: nat)
    requires x in c.tags && i < |c.tags[x]| && |col.text| == |col.orig|
    requires Steady(col) && (ValueFree(col) || Single(c, s)) && InvPrev(c, s, col)
    ensures var c', t := RefreshInfo(c, x, i), c.tags[x][i];
            (ValueFree(col) || Single(c', s))
            && InvPrev(c', s, if c.Stale(t) && t.section == s then Refresh(col, c.Value(t)) else col)
  {
    var c', t := RefreshInfo(c, x, i), c.tags[x][i];
    RefreshKeeps(c, x, i);
    RefreshInfoEntries(c, x, i);
    if c.Stale(t) && t.section == s {
      var col' := Refresh(col, c.Value(t));
      RefreshShows(col, c.Value(t));
      assert Reads(c, x, i, s);
      forall id, j | Reads(c', id, j, s) && c'.tags[id][j].initOk ensures Shows(col', c'.tags[id][j].prevValue) {
        if !(id == x && j == i) {
          ShowsAnyValue(col', c.Value(t), c'.tags[id][j].prevValue);
        }
      }
    }
  }

  lemma StepHome(c: Config, s: string, col: Column, x: ObjectId, i: nat, a: ObjectId)
    requires WellFormed(c) && x in c.tags && i < |c.tags[x]| && |col.text| == |col.orig|
    requires Steady(col) && Homed(c, s, a) && InvHome(c, s, col, a, Some(x), i)
    ensures var c', t := RefreshInfo(c, x, i), c.tags[x][i];
            Homed(c', s, a)
            && InvHome(c', s, if c.Stale(t) && t.section == s then Refresh(col, c.Value(t)) else col, a, Some(x), i + 1)
  {
    var c', t := RefreshInfo(c, x, i), c.tags[x][i];
    RefreshKeeps(c, x, i);
    RefreshInfoEntries(c, x, i);
    if Reads(c, x, i, s) {
      assert t.sid == a;
      if x == a {
        assert forall j | Reads(c, a, j, s) :: j == i;
      }
      if c.Stale(t) {
        RefreshShows(col, c.Value(t));
      }
    }
  }

  lemma StepPin(c: Config, s: string, col: Column, x: ObjectId, i: nat)
    requires x in c.tags && i < |c.tags[x]| && |col.text| == |col.orig|
    requires PinnedText(col) && PinnedBy(c, s) && InvPin(c, s, col, Some(x), i)
    ensures var c', t := RefreshInfo(c, x, i), c.tags[x][i];
            PinnedBy(c', s)
            && InvPin(c', s, if c.Stale(t) && t.section == s then Refresh(col, c.Value(t)) else col, Some(x), i + 1)
  {
    var c', t := RefreshInfo(c, x, i), c.tags[x][i];
    RefreshKeeps(c, x, i);
    RefreshInfoEntries(c, x, i);
    if Untouched(c, s, col, Some(x), i) {
      if Reads(c, x, i, s) {
        assert First(c, x, i, s);
        PinShows(col);
      } else {
        assert Untouched(c', s, col, Some(x), i + 1);
      }
    }
  }

  lemma PinShows(col: Column)
    requires PinnedText(col) && FreshColumn(col)
    ensures var r := Refresh(col, col.vmin); !r.on && r.vmin == col.vmin && Shows(r, col.vmin)
  {
    var r, p := Refresh(col, col.vmin), FirstPlain(col.orig);
    forall i | 0 <= i < |col.orig| ensures r.text[i] == Shown(col.orig[i], col.vmin, col.vmin, col.vmax) {
      if i > p {
        ShownPlain(col.orig[i], col.vmin, col.vmin, col.vmax);
      }
    }
  }

  lemma StepKinds(c: Config, s: string, col: Column, x: ObjectId, i: nat)
    requires WellFormed(c) && x in c.tags && i < |c.tags[x]| && |col.text| == |col.orig|
             && ColInv(c, s, col, Some(x), i)
    ensures var c', t := RefreshInfo(c, x, i), c.tags[x][i];
            ColInv(c', s, if c.Stale(t) && t.section == s then Refresh(col, c.Value(t)) else col, Some(x), i + 1)
  {
    if a :| Steady(col) && Homed(c, s, a) && InvHome(c, s, col, a, Some(x), i) {
      StepHome(c, s, col, x, i, a);
    } else if PinnedText(col) && PinnedBy(c, s) && InvPin(c, s, col, Some(x), i) {
      StepPin(c, s, col, x, i);
    } else {
      StepPrev(c, s, col, x, i);
    }
  }

  lemma StepColumn(c: Config, s: string, k: int, side: Side, x: ObjectId, i: nat)
    requires WellFormed(c) && x in c.tags && i < |c.tags[x]| && HasRange(c, s, k)
    requires ColInv(c, s, Col(c, s, k, side), Some(x), i)
    ensures HasRange(RefreshInfo(c, x, i), s, k)
    ensures ColInv(RefreshInfo(c, x, i), s, Col(RefreshInfo(c, x, i), s, k, side), Some(x), i + 1)
  {
    assert Bound(c, c.tags[x][i]);
    RefreshInfoColumn(c, x, i, s, k, side);
    StepKinds(c, s, Col(c, s, k, side), x, i);
  }

  lemma StepInv(c: Config, x: ObjectId, i: nat)
    requires WellFormed(c) && x in c.tags && i < |c.tags[x]| && RunInv(c, Some(x), i)
    ensures RunInv(RefreshInfo(c, x, i), Some(x), i + 1)
  {
    var c' := RefreshInfo(c, x, i);
    assert Bound(c, c.tags[x][i]);
    RefreshKeeps(c, x, i);
    forall id, j, s, k, side | Reads(c', id, j, s) && HasRange(c', s, k)
      ensures ColInv(c', s, Col(c', s, k, side), Some(x), i + 1)
    {
      assert Reads(c, id, j, s);
      RefreshInfoColumn(c, x, i, s, k, side);
      StepColumn(c, s, k, side, x, i);
    }
  }

  // ---- What an entry shows right after it was handled.

  lemma ColumnRight(c: Config, id: ObjectId, i: nat, s: string, col: Column)
    requires Reads(c, id, i, s) && c.tags[id][i].sid in c.smap && !c.Stale(c.tags[id][i])
             && ColInv(c, s, col, Some(id), i + 1)
    requires forall j | 0 <= j < |c.tags[id]| && c.tags[id][j].sid == c.tags[id][i].sid :: j == i
    requires col.vmin <= c.Value(c.tags[id][i]) <= col.vmax
    ensures Shows(col, c.Value(c.tags[id][i]))
  {
    if a :| Homed(c, s, a) && InvHome(c, s, col, a, Some(id), i + 1) {
    }
  }

  lemma {:induction false} RangesRight(rs: seq<Range>, value: Long)
    requires forall k | 0 <= k < |rs| && rs[k].CheckInRange(value) :: rs[k].tags == IdealTags(rs[k], value)
    ensures ShowRanges(rs, value) == IdealRanges(rs, value)
  {
    if rs != [] {
      RangesRight(rs[1..], value);
    }
  }

  lemma EntryRight(c: Config, id: ObjectId, i: nat)
    requires WellFormed(c) && id in c.tags && i < |c.tags[id]| && RunInv(c, Some(id), i + 1) && !c.Stale(c.tags[id][i])
    ensures ShowInfo(c, c.tags[id][i]) == IdealInfo(c, c.tags[id][i])
  {
    var t := c.tags[id][i];
    if t.anyTags == [] {
      var s, value := t.section, c.Value(t);
      var rs := c.Ranges(s);
      assert Bound(c, t) && Reads(c, id, i, s);
      forall k | 0 <= k < |rs| && rs[k].CheckInRange(value) ensures rs[k].tags == IdealTags(rs[k], value) {
        assert HasRange(c, s, k);
        ColumnRight(c, id, i, s, Col(c, s, k, Keys));
        ColumnRight(c, id, i, s, Col(c, s, k, Values));
        TagsFromColumns(rs[k], value);
      }
      RangesRight(rs, value);
    }
  }

  lemma {:induction false} MadeRight(c: Config, id: ObjectId, i: nat)
    requires WellFormed(c) && id in c.tags && i <= |c.tags[id]| && RunInv(c, Some(id), i)
    ensures Made(c, id, i).1 == IdealFrom(c, id, i)
    ensures WellFormed(Made(c, id, i).0) && id in Made(c, id, i).0.tags && |Made(c, id, i).0.tags[id]| == |c.tags[id]|
    ensures RunInv(Made(c, id, i).0, Some(id), |c.tags[id]|)
    decreases |c.tags[id]| - i
  {
    if i < |c.tags[id]| {
      var c' := RefreshInfo(c, id, i);
      RefreshInfoWellFormed(c, id, i);
      RefreshInfoEntries(c, id, i);
      StepInv(c, id, i);
      MadeRight(c', id, i + 1);
      EntryRight(c', id, i);
      IdealFromStable(c, id, i, id, i, c.smap);
      assert c.(smap := c.smap) == c && c'.(smap := c.smap) == c';
    }
  }

  /** One message: its tags are right, and the invariant is kept. */
  lemma MessageRight(c: Config, id: ObjectId, v: Long)
    requires WellFormed(c) && RunInv(c, None, 0)
    ensures var d := Updated(c, id, v);
            Got(d, id).1 == Ideal(d, id) && WellFormed(Got(d, id).0) && RunInv(Got(d, id).0, None, 0)
  {
    var d := Updated(c, id, v);
    UpdatedWellFormed(c, id, v);
    BeginInv(c, id, v);
    if id in d.tags {
      MadeRight(d, id, 0);
    }
    EndInv(Got(d, id).0, id);
  }

  lemma {:induction false} CoupledRows(u: Setup, c: Config, events: seq<Event>)
    requires WellFormed(c) && RunInv(c, None, 0)
    ensures WellFormed(Run(u, c, events).config) && RunInv(Run(u, c, events).config, None, 0)
    ensures RowsMatch(u, c, Run(u, c, events).buf.accepted, Handled(u, events))
  {
    if events != [] {
      var n := |events| - 1;
      var s, e, msgs := Run(u, c, events[..n]), events[n], Handled(u, events[..n]);
      CoupledRows(u, c, events[..n]);
      StepRows(u, s, e);
      if e.Message? && Known(u, e.m) {
        MessageRight(s.config, e.m.id, e.m.value);
        ConfigFromMessages(u, c, events[..n]);
        IdealFromMessages(c, msgs, e.m);
        assert (msgs + [e.m])[|msgs|] == e.m;
        OneMoreRow(u, c, s.buf.accepted, msgs, e.m, NewRow(u, s.config, e.m));
      }
    }
  }

  lemma SoundRows(u: Setup, c: Config)
    requires WellFormed(c) && Fresh(c) && CoupledSound(c)
    ensures RowsCorrect(u, c)
  {
    FreshInv(c);
    forall events: seq<Event> ensures RowsMatch(u, c, Run(u, c, events).buf.accepted, Handled(u, events)) {
      CoupledRows(u, c, events);
    }
  }
}
