/** The tag cache over every interleaving of updateTags and getTags: what it answers, what it should
    answer, and exactly which configurations make the two agree. */
module TagsCache {
  import opened Text
  import opened TagText
  import opened TagsSetup
  import opened TagsConfig

  datatype Op = Update(id: ObjectId, value: Long) | Get(id: ObjectId)

  function Step(c: Config, op: Op): Config {
    match op
    case Update(id, value) => Updated(c, id, value)
    case Get(id) => Got(c, id).0
  }

  /** The configuration after a run. */
  function After(c: Config, ops: seq<Op>): Config
    decreases |ops|
  {
    if ops == [] then c else After(Step(c, ops[0]), ops[1..])
  }

  // ---- The uncached specification: current values, templates, nothing remembered.

  function IdealTags(r: Range, value: Long): seq<Tag> {
    seq(|r.tags|, i requires 0 <= i < |r.tags| =>
        Tag(Shown(r.tags[i].origKey, value, r.vmin, r.vmax), Shown(r.tags[i].origValue, value, r.vmin, r.vmax),
            r.tags[i].origKey, r.tags[i].origValue))
  }

  function IdealRanges(rs: seq<Range>, value: Long): seq<Tag> {
    if rs == [] then []
    else (if rs[0].CheckInRange(value) then IdealTags(rs[0], value) else []) + IdealRanges(rs[1..], value)
  }

  function IdealInfo(c: Config, t: TagsInfo): seq<Tag> {
    if t.anyTags != [] then (if c.Value(t) != 0 then t.anyTags else [])
    else IdealRanges(c.Ranges(t.section), c.Value(t))
  }

  function IdealFrom(c: Config, id: ObjectId, i: nat): seq<Tag>
    decreases |c.List(id)| - i
  {
    if i >= |c.List(id)| then [] else IdealInfo(c, c.List(id)[i]) + IdealFrom(c, id, i + 1)
  }

  function Ideal(c: Config, id: ObjectId): seq<Tag> {
    IdealFrom(c, id, 0)
  }

  /** getTags agrees with the specification at every point of every run. */
  ghost predicate Correct(c: Config) {
    forall ops: seq<Op>, id: ObjectId :: Got(After(c, ops), id).1 == Ideal(After(c, ops), id)
  }

  // ---- The condition on a configuration, checked on its templates and its lists.

  /** Switching the substitution off at the first plain template leaves nothing to substitute. */
  ghost predicate Steady(col: Column) {
    var p := FirstPlain(col.orig);
    p == |col.orig| || forall i | 0 <= i < |col.orig| && i != p ::
      if i < p then !UsesValue(col.orig[i]) else !HasPlaceholder(col.orig[i])
  }

  ghost predicate ValueFree(col: Column) {
    forall i | 0 <= i < |col.orig| :: !UsesValue(col.orig[i])
  }

  /** Entry `i` of the list of `id` reads section `s`. */
  ghost predicate Reads(c: Config, id: ObjectId, i: int, s: string) {
    id in c.tags && 0 <= i < |c.tags[id]| && c.tags[id][i].anyTags == [] && c.tags[id][i].section == s
  }

  ghost predicate HasRange(c: Config, s: string, k: int) {
    s in c.tagsmap && 0 <= k < |c.tagsmap[s]|
  }

  function Col(c: Config, s: string, k: int, side: Side): Column
    requires HasRange(c, s, k)
  {
    ColumnOf(c.tagsmap[s][k], side)
  }

  ghost predicate Sound(c: Config) {
    && (forall id, i, s, k, side | Reads(c, id, i, s) && HasRange(c, s, k) :: Steady(Col(c, s, k, side)))
    && (forall id, i, id', i', s, k, side
          | Reads(c, id, i, s) && Reads(c, id', i', s) && (id, i) != (id', i') && HasRange(c, s, k) ::
              ValueFree(Col(c, s, k, side)))
  }

  // ---- Sufficiency: an invariant of every run.

  ghost predicate Shows(col: Column, value: Long) {
    |col.text| == |col.orig| && forall i | 0 <= i < |col.orig| ::
      col.text[i] == Shown(col.orig[i], value, col.vmin, col.vmax)
  }

  ghost predicate ColumnOk(col: Column) {
    if col.on then col.text == col.orig || FirstPlain(col.orig) == |col.orig|
    else forall value: Long :: Shows(col, value)
  }

  ghost predicate Cached(c: Config) {
    && (forall s, k, side | HasRange(c, s, k) :: ColumnOk(Col(c, s, k, side)))
    && (forall id, i, s, k, side | Reads(c, id, i, s) && c.tags[id][i].initOk && HasRange(c, s, k) ::
          Shows(Col(c, s, k, side), c.tags[id][i].prevValue))
  }

  ghost predicate Inv(c: Config) {
    Sound(c) && Cached(c)
  }

  lemma ShownValueFree(s: string, v: Long, w: Long, vmin: Long, vmax: Long)
    requires !UsesValue(s)
    ensures Shown(s, v, vmin, vmax) == Shown(s, w, vmin, vmax)
  {
    RenderIgnoresValue(s, ToDecimal(v), ToDecimal(w), ToDecimal(vmin), ToDecimal(vmax));
  }

  lemma ShowsAnyValue(col: Column, v: Long, w: Long)
    requires ValueFree(col) && Shows(col, v)
    ensures Shows(col, w)
  {
    forall i | 0 <= i < |col.orig| ensures col.text[i] == Shown(col.orig[i], w, col.vmin, col.vmax) {
      ShownValueFree(col.orig[i], v, w, col.vmin, col.vmax);
    }
  }

  lemma RefreshShows(col: Column, value: Long)
    requires |col.text| == |col.orig| && ColumnOk(col) && Steady(col)
    ensures Shows(Refresh(col, value), value) && ColumnOk(Refresh(col, value))
  {
    var r, p := Refresh(col, value), FirstPlain(col.orig);
    if col.on && p < |col.orig| {
      assert col.text == col.orig;
      forall w: Long ensures Shows(r, w) {
        forall i | 0 <= i < |col.orig| ensures r.text[i] == Shown(col.orig[i], w, col.vmin, col.vmax) {
          if i < p {
            ShownValueFree(col.orig[i], value, w, col.vmin, col.vmax);
          } else {
            ShownPlain(col.orig[i], value, col.vmin, col.vmax);
            ShownPlain(col.orig[i], w, col.vmin, col.vmax);
          }
        }
      }
    }
  }

  /** How the work for one entry changes a column ... */
  lemma RefreshInfoColumn(c: Config, id: ObjectId, i: nat, s: string, k: int, side: Side)
    requires id in c.tags && i < |c.tags[id]| && Bound(c, c.tags[id][i])
    ensures var c', t := RefreshInfo(c, id, i), c.tags[id][i];
            && (HasRange(c', s, k) <==> HasRange(c, s, k))
            && (HasRange(c, s, k) ==>
                  var was := Col(c, s, k, side);
                  Col(c', s, k, side) == if c.Stale(t) && t.section == s then Refresh(was, c.Value(t)) else was)
  {
    var t := c.tags[id][i];
    if HasRange(c, s, k) && c.Stale(t) && t.section == s {
      RefreshRangeBySide(c.tagsmap[s][k], c.Value(t), side);
    }
  }

  /** ... and the lists. */
  lemma RefreshInfoEntries(c: Config, id: ObjectId, i: nat)
    requires id in c.tags && i < |c.tags[id]|
    ensures var c', t := RefreshInfo(c, id, i), c.tags[id][i];
            && c'.smap == c.smap && c'.tags.Keys == c.tags.Keys
            && (forall id' | id' in c.tags && id' != id :: c'.tags[id'] == c.tags[id'])
            && |c'.tags[id]| == |c.tags[id]|
            && (forall j | 0 <= j < |c.tags[id]| && j != i :: c'.tags[id][j] == c.tags[id][j])
            && c'.tags[id][i] == (if c.Stale(t) then t.(initOk := true, prevValue := c.Value(t)) else t)
            && !c'.Stale(c'.tags[id][i])
  {
  }

  lemma RefreshInfoWellFormed(c: Config, id: ObjectId, i: nat)
    requires WellFormed(c) && id in c.tags && i < |c.tags[id]|
    ensures WellFormed(RefreshInfo(c, id, i))
  {
    var c', t := RefreshInfo(c, id, i), c.tags[id][i];
    assert Bound(c, t);
    RefreshInfoEntries(c, id, i);
    forall id', j | id' in c'.tags && 0 <= j < |c'.tags[id']| ensures Bound(c', c'.tags[id'][j]) {
      assert Bound(c, c.tags[id'][j]);
    }
    forall s, k | s in c'.tagsmap && 0 <= k < |c'.tagsmap[s]| ensures c'.tagsmap[s][k].vmin <= c'.tagsmap[s][k].vmax {
      RefreshInfoColumn(c, id, i, s, k, Keys);
      assert Col(c', s, k, Keys).vmin == Col(c, s, k, Keys).vmin;
    }
  }

  lemma RefreshInfoReads(c: Config, id: ObjectId, i: nat)
    requires id in c.tags && i < |c.tags[id]|
    ensures forall id', j, s :: Reads(RefreshInfo(c, id, i), id', j, s) <==> Reads(c, id', j, s)
  {
    RefreshInfoEntries(c, id, i);
  }

  lemma RefreshInfoSound(c: Config, id: ObjectId, i: nat)
    requires WellFormed(c) && Sound(c) && id in c.tags && i < |c.tags[id]|
    ensures Sound(RefreshInfo(c, id, i))
  {
    var c' := RefreshInfo(c, id, i);
    assert Bound(c, c.tags[id][i]);
    RefreshInfoReads(c, id, i);
    forall s, k, side | HasRange(c', s, k)
      ensures HasRange(c, s, k) && Col(c', s, k, side).orig == Col(c, s, k, side).orig
    {
      RefreshInfoColumn(c, id, i, s, k, side);
    }
  }

  lemma RefreshInfoCached(c: Config, id: ObjectId, i: nat)
    requires WellFormed(c) && Inv(c) && id in c.tags && i < |c.tags[id]|
    ensures Cached(RefreshInfo(c, id, i))
  {
    var c', t := RefreshInfo(c, id, i), c.tags[id][i];
    assert Bound(c, t);
    RefreshInfoEntries(c, id, i);
    forall s, k, side | HasRange(c', s, k) ensures ColumnOk(Col(c', s, k, side)) {
      RefreshInfoColumn(c, id, i, s, k, side);
      if c.Stale(t) && t.section == s {
        assert Reads(c, id, i, s);
        RefreshShows(Col(c, s, k, side), c.Value(t));
      }
    }
    forall id', j, s, k, side | Reads(c', id', j, s) && c'.tags[id'][j].initOk && HasRange(c', s, k)
      ensures Shows(Col(c', s, k, side), c'.tags[id'][j].prevValue)
    {
      RefreshInfoColumn(c, id, i, s, k, side);
      assert Reads(c, id', j, s);
      if c.Stale(t) && t.section == s {
        assert Reads(c, id, i, s);
        RefreshShows(Col(c, s, k, side), c.Value(t));
        if (id', j) != (id, i) {
          assert ValueFree(Col(c, s, k, side));
          ShowsAnyValue(Col(c', s, k, side), c.Value(t), c'.tags[id'][j].prevValue);
        }
      }
    }
  }

  /** An entry that is up to date shows what the specification says. */
  lemma ShowIsIdeal(c: Config, id: ObjectId, i: nat)
    requires Cached(c) && id in c.tags && i < |c.tags[id]| && !c.Stale(c.tags[id][i])
    ensures ShowInfo(c, c.tags[id][i]) == IdealInfo(c, c.tags[id][i])
  {
    var t := c.tags[id][i];
    if t.anyTags == [] && t.section in c.tagsmap {
      var rs := c.tagsmap[t.section];
      forall k | 0 <= k < |rs| ensures rs[k].tags == IdealTags(rs[k], c.Value(t)) {
        assert Reads(c, id, i, t.section) && HasRange(c, t.section, k);
        assert Shows(Col(c, t.section, k, Keys), t.prevValue) && Shows(Col(c, t.section, k, Values), t.prevValue);
        TagsFromColumns(rs[k], c.Value(t));
      }
      ShowRangesIdeal(rs, c.Value(t));
    }
  }

  lemma TagsFromColumns(r: Range, value: Long)
    requires Shows(ColumnOf(r, Keys), value) && Shows(ColumnOf(r, Values), value)
    ensures r.tags == IdealTags(r, value)
  {
    forall i | 0 <= i < |r.tags| ensures r.tags[i] == IdealTags(r, value)[i] {
      assert ColumnOf(r, Keys).text[i] == r.tags[i].key && ColumnOf(r, Keys).orig[i] == r.tags[i].origKey;
      assert ColumnOf(r, Values).text[i] == r.tags[i].value && ColumnOf(r, Values).orig[i] == r.tags[i].origValue;
    }
  }

  lemma {:induction false} ShowRangesIdeal(rs: seq<Range>, value: Long)
    requires forall k | 0 <= k < |rs| :: rs[k].tags == IdealTags(rs[k], value)
    ensures ShowRanges(rs, value) == IdealRanges(rs, value)
  {
    if rs != [] {
      ShowRangesIdeal(rs[1..], value);
    }
  }

  // ---- The specification depends on nothing a getTags changes.

  lemma {:induction false} IdealRangesStable(rs: seq<Range>, x: Long, value: Long)
    ensures IdealRanges(RefreshRanges(rs, x), value) == IdealRanges(rs, value)
  {
    if rs != [] {
      IdealRangesStable(rs[1..], x, value);
      assert RefreshRanges(rs, x)[1..] == RefreshRanges(rs[1..], x);
      assert IdealTags(RefreshRange(rs[0], x), value) == IdealTags(rs[0], value);
    }
  }

  lemma IdealInfoStable(c: Config, id: ObjectId, i: nat, u: TagsInfo, m: map<ObjectId, Long>)
    requires id in c.tags && i < |c.tags[id]|
    ensures IdealInfo(RefreshInfo(c, id, i).(smap := m), u) == IdealInfo(c.(smap := m), u)
  {
    var t := c.tags[id][i];
    IdealRangesStable(c.Ranges(t.section), c.Value(t), c.(smap := m).Value(u));
  }

  lemma {:induction false} IdealFromStable(c: Config, id: ObjectId, i: nat, id': ObjectId, j: nat,
                                           m: map<ObjectId, Long>)
    requires id in c.tags && i < |c.tags[id]|
    ensures IdealFrom(RefreshInfo(c, id, i).(smap := m), id', j) == IdealFrom(c.(smap := m), id', j)
    decreases |c.List(id')| - j
  {
    var c', d, t := RefreshInfo(c, id, i).(smap := m), c.(smap := m), c.tags[id][i];
    RefreshInfoEntries(c, id, i);
    if j < |c.List(id')| {
      var u := c.List(id')[j];
      assert c'.List(id')[j] == u.(initOk := c'.List(id')[j].initOk, prevValue := c'.List(id')[j].prevValue);
      IdealInfoStable(c, id, i, u, m);
      IdealFromStable(c, id, i, id', j + 1, m);
    }
  }

  lemma {:induction false} MadeIsIdeal(c: Config, id: ObjectId, i: nat)
    requires WellFormed(c) && Inv(c) && id in c.tags && i <= |c.tags[id]|
    ensures Made(c, id, i).1 == IdealFrom(c, id, i)
    ensures WellFormed(Made(c, id, i).0) && Inv(Made(c, id, i).0)
    decreases |c.tags[id]| - i
  {
    if i < |c.tags[id]| {
      var c' := RefreshInfo(c, id, i);
      RefreshInfoWellFormed(c, id, i);
      RefreshInfoSound(c, id, i);
      RefreshInfoCached(c, id, i);
      RefreshInfoEntries(c, id, i);
      MadeIsIdeal(c', id, i + 1);
      ShowIsIdeal(c', id, i);
      IdealFromStable(c, id, i, id, i, c.smap);
      assert c.(smap := c.smap) == c && c'.(smap := c.smap) == c';
    }
  }

  lemma StepKeepsInv(c: Config, op: Op)
    requires WellFormed(c) && Inv(c)
    ensures WellFormed(Step(c, op)) && Inv(Step(c, op))
  {
    match op
    case Update(id, value) =>
      var c' := Updated(c, id, value);
      assert c'.smap.Keys == c.smap.Keys && c'.tagsmap == c.tagsmap && c'.tags == c.tags;
      forall id, i | id in c'.tags && 0 <= i < |c'.tags[id]| ensures Bound(c', c'.tags[id][i]) {
        assert Bound(c, c.tags[id][i]);
      }
      forall s, k, side | HasRange(c', s, k) ensures HasRange(c, s, k) && Col(c', s, k, side) == Col(c, s, k, side) {
      }
      assert forall id, i, s :: Reads(c', id, i, s) <==> Reads(c, id, i, s);
    case Get(id) =>
      if id in c.tags {
        MadeIsIdeal(c, id, 0);
      }
  }

  lemma {:induction false} RunKeepsInv(c: Config, ops: seq<Op>)
    requires WellFormed(c) && Inv(c)
    ensures WellFormed(After(c, ops)) && Inv(After(c, ops))
    decreases |ops|
  {
    if ops != [] {
      StepKeepsInv(c, ops[0]);
      RunKeepsInv(Step(c, ops[0]), ops[1..]);
    }
  }

  lemma FreshIsCached(c: Config)
    requires Fresh(c)
    ensures Cached(c)
  {
    forall s, k, side | HasRange(c, s, k) ensures ColumnOk(Col(c, s, k, side)) {
      assert FreshColumn(ColumnOf(c.tagsmap[s][k], side));
    }
  }

  /** A sound configuration answers every getTags of every run as the specification does. */
  lemma SoundIsCorrect(c: Config)
    requires WellFormed(c) && Fresh(c) && Sound(c)
    ensures Correct(c)
  {
    FreshIsCached(c);
    forall ops: seq<Op>, id: ObjectId ensures Got(After(c, ops), id).1 == Ideal(After(c, ops), id) {
      RunKeepsInv(c, ops);
      if id in After(c, ops).tags {
        MadeIsIdeal(After(c, ops), id, 0);
      }
    }
  }

  // ---- The answers as a function of the history of updates.

  /** The value of the last update of `s`, or its registered default. */
  function LastValue(ops: seq<Op>, s: ObjectId, default: Long): Long {
    if ops == [] then default
    else var n := |ops| - 1;
      if ops[n].Update? && ops[n].id == s then ops[n].value else LastValue(ops[..n], s, default)
  }

  function StatesAfter(c: Config, ops: seq<Op>): map<ObjectId, Long> {
    map s | s in c.smap :: LastValue(ops, s, c.smap[s])
  }

  lemma {:induction false} MadeKeepsIdeal(c: Config, id: ObjectId, i: nat, id': ObjectId, m: map<ObjectId, Long>)
    requires id in c.tags && i <= |c.tags[id]|
    ensures Ideal(Made(c, id, i).0.(smap := m), id') == Ideal(c.(smap := m), id') && Made(c, id, i).0.smap == c.smap
    decreases |c.tags[id]| - i
  {
    if i < |c.tags[id]| {
      RefreshInfoEntries(c, id, i);
      IdealFromStable(c, id, i, id', 0, m);
      MadeKeepsIdeal(RefreshInfo(c, id, i), id, i + 1, id', m);
    }
  }

  lemma {:induction false} RunKeepsIdeal(c: Config, ops: seq<Op>, id: ObjectId, m: map<ObjectId, Long>)
    ensures Ideal(After(c, ops).(smap := m), id) == Ideal(c.(smap := m), id)
    decreases |ops|
  {
    if ops != [] {
      RunKeepsIdeal(Step(c, ops[0]), ops[1..], id, m);
      if ops[0].Get? && ops[0].id in c.tags {
        MadeKeepsIdeal(c, ops[0].id, 0, id, m);
      }
    }
  }

  lemma {:induction false} AfterSnoc(c: Config, ops: seq<Op>, op: Op)
    ensures After(c, ops + [op]) == Step(After(c, ops), op)
    decreases |ops|
  {
    if ops == [] {
      assert [op][1..] == [] && [] + [op] == [op];
    } else {
      assert (ops + [op])[1..] == ops[1..] + [op];
      AfterSnoc(Step(c, ops[0]), ops[1..], op);
    }
  }

  lemma {:induction false} RunStates(c: Config, ops: seq<Op>)
    ensures After(c, ops).smap == StatesAfter(c, ops)
  {
    if ops != [] {
      var n := |ops| - 1;
      var c1 := After(c, ops[..n]);
      assert ops == ops[..n] + [ops[n]];
      AfterSnoc(c, ops[..n], ops[n]);
      RunStates(c, ops[..n]);
      if ops[n].Get? && ops[n].id in c1.tags {
        MadeKeepsIdeal(c1, ops[n].id, 0, 0, c1.smap);
      }
    }
  }

  /** What a getTags should answer after a run depends on the last value of each controlling sensor only. */
  lemma IdealIsHistory(c: Config, ops: seq<Op>, id: ObjectId)
    ensures Ideal(After(c, ops), id) == Ideal(c.(smap := StatesAfter(c, ops)), id)
  {
    RunStates(c, ops);
    RunKeepsIdeal(c, ops, id, StatesAfter(c, ops));
    assert After(c, ops).(smap := StatesAfter(c, ops)) == After(c, ops);
  }

  // ---- What the specification says, without its own functions.

  /** A list of fixed tags, in every run: all of them while the last value of its sensor is not 0, else none. */
  lemma FixedTagsInEveryRun(c: Config, ops: seq<Op>, id: ObjectId)
    requires id in c.tags && |c.tags[id]| == 1 && c.tags[id][0].anyTags != [] && c.tags[id][0].sid in c.smap
    ensures var t := c.tags[id][0];
            Got(After(c, ops), id).1 == if LastValue(ops, t.sid, c.smap[t.sid]) != 0 then t.anyTags else []
  {
    FixedStays(c, ops, id);
    RunStates(c, ops);
    var d := After(c, ops);
    assert Made(d, id, 1).1 == [];
    assert RefreshInfo(d, id, 0) == d;
    assert ShowInfo(d, d.tags[id][0]) + [] == ShowInfo(d, d.tags[id][0]);
  }

  lemma {:induction false} FixedStays(c: Config, ops: seq<Op>, id: ObjectId)
    requires id in c.tags && |c.tags[id]| == 1 && c.tags[id][0].anyTags != []
    ensures id in After(c, ops).tags && After(c, ops).tags[id] == c.tags[id]
    decreases |ops|
  {
    if ops != [] {
      if ops[0].Get? && ops[0].id in c.tags {
        MadeFixed(c, ops[0].id, 0, id);
      }
      FixedStays(Step(c, ops[0]), ops[1..], id);
    }
  }

  lemma {:induction false} MadeFixed(c: Config, id: ObjectId, i: nat, other: ObjectId)
    requires id in c.tags && i <= |c.tags[id]| && other in c.tags && |c.tags[other]| == 1
             && c.tags[other][0].anyTags != []
    ensures other in Made(c, id, i).0.tags && Made(c, id, i).0.tags[other] == c.tags[other]
    decreases |c.tags[id]| - i
  {
    if i < |c.tags[id]| {
      RefreshInfoEntries(c, id, i);
      MadeFixed(RefreshInfo(c, id, i), id, i + 1, other);
    }
  }

  lemma ConcatThree(x: seq<Tag>, y: seq<Tag>, z: seq<Tag>)
    ensures x + (y + z) == (x + y) + z
  {
  }

  /** Ranges before and ranges behind: their tags come in this order ... */
  lemma {:induction false} RangesConcat(a: seq<Range>, b: seq<Range>, value: Long)
    ensures IdealRanges(a + b, value) == IdealRanges(a, value) + IdealRanges(b, value)
  {
    if a == [] {
      assert a + b == b;
    } else {
      var first := if a[0].CheckInRange(value) then IdealTags(a[0], value) else [];
      RangesConcat(a[1..], b, value);
      assert (a + b)[0] == a[0] && (a + b)[1..] == a[1..] + b;
      ConcatThree(first, IdealRanges(a[1..], value), IdealRanges(b, value));
    }
  }

  /** ... and one range shows all its tags, substituted, exactly if the value lies between its bounds. */
  lemma OneRange(r: Range, value: Long)
    ensures var shown := IdealRanges([r], value);
            if r.vmin <= value && value <= r.vmax then
              |shown| == |r.tags| && forall i | 0 <= i < |r.tags| ::
                && shown[i].key == Shown(r.tags[i].origKey, value, r.vmin, r.vmax)
                && shown[i].value == Shown(r.tags[i].origValue, value, r.vmin, r.vmax)
            else shown == []
  {
    assert IdealRanges([r][1..], value) == [];
  }

  /** The entries of a list come in their order: fixed tags while the state is not 0, or the ranges of the
      section for the state. */
  lemma IdealEntries(c: Config, id: ObjectId, i: nat)
    requires id in c.tags && i <= |c.tags[id]|
    ensures IdealFrom(c, id, i) ==
              if i == |c.tags[id]| then []
              else
                var t, rest := c.tags[id][i], IdealFrom(c, id, i + 1);
                var state := if t.sid in c.smap then c.smap[t.sid] else 0;
                (if t.anyTags == [] then IdealRanges(c.Ranges(t.section), state)
                 else if state != 0 then t.anyTags else []) + rest
  {
  }
}
