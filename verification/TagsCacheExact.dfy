/** The other half: a configuration that is not sound has a run whose last getTags is wrong. */
module TagsCacheExact {
  import opened Text
  import opened TagText
  import opened TagsSetup
  import opened TagsConfig
  import opened TagsCache

  lemma {:induction false} AfterConcat(c: Config, a: seq<Op>, b: seq<Op>)
    ensures After(c, a + b) == After(After(c, a), b)
    decreases |a|
  {
    if a == [] {
      assert a + b == b;
    } else {
      assert (a + b)[0] == a[0] && (a + b)[1..] == a[1..] + b;
      AfterConcat(Step(c, a[0]), a[1..], b);
    }
  }

  /** One updateTags with the same value for every sensor that controls a list. */
  function SetAll(lst: seq<TagsInfo>, value: Long): seq<Op> {
    if lst == [] then [] else [Update(lst[0].sid, value)] + SetAll(lst[1..], value)
  }

  lemma {:induction false} AfterSetAll(c: Config, lst: seq<TagsInfo>, value: Long)
    requires forall i | 0 <= i < |lst| :: lst[i].sid in c.smap
    ensures var c' := After(c, SetAll(lst, value));
            && c' == c.(smap := c'.smap) && c'.smap.Keys == c.smap.Keys
            && (forall s | s in c.smap :: c'.smap[s] == value || c'.smap[s] == c.smap[s])
            && (forall i | 0 <= i < |lst| :: c'.smap[lst[i].sid] == value)
    decreases |lst|
  {
    if lst != [] {
      var ops := SetAll(lst, value);
      assert ops[0] == Update(lst[0].sid, value) && ops[1..] == SetAll(lst[1..], value);
      AfterSetAll(Updated(c, lst[0].sid, value), lst[1..], value);
    }
  }

  // ---- What one getTags leaves behind.

  /** Same entries up to the memory of their last value, same ranges up to their texts. */
  ghost predicate SameShape(c: Config, c': Config) {
    && c'.smap.Keys == c.smap.Keys && c'.tags.Keys == c.tags.Keys && c'.tagsmap.Keys == c.tagsmap.Keys
    && (forall id | id in c.tags :: |c'.tags[id]| == |c.tags[id]|)
    && (forall id, i | id in c.tags && 0 <= i < |c.tags[id]| ::
          c'.tags[id][i] == c.tags[id][i].(initOk := c'.tags[id][i].initOk, prevValue := c'.tags[id][i].prevValue))
  }

  /** The entries from `i` on are up to date. */
  ghost predicate SyncedFrom(c: Config, id: ObjectId, i: int) {
    id in c.tags && forall j | 0 <= i <= j < |c.tags[id]| :: !c.Stale(c.tags[id][j])
  }

  lemma EntryShape(c: Config, id: ObjectId, i: nat)
    requires WellFormed(c) && id in c.tags && i < |c.tags[id]|
    ensures SameShape(c, RefreshInfo(c, id, i))
  {
    RefreshInfoEntries(c, id, i);
    assert Bound(c, c.tags[id][i]);
  }

  lemma SameShapeTrans(a: Config, b: Config, c: Config)
    requires SameShape(a, b) && SameShape(b, c)
    ensures SameShape(a, c)
  {
  }

  lemma {:induction false} MadeSyncs(c: Config, id: ObjectId, i: nat)
    requires WellFormed(c) && id in c.tags && i <= |c.tags[id]|
    ensures var c' := Made(c, id, i).0;
            && WellFormed(c') && SameShape(c, c') && c'.smap == c.smap && SyncedFrom(c', id, i)
            && (forall j | 0 <= j < i :: c'.tags[id][j] == c.tags[id][j])
            && (forall id' | id' in c.tags && id' != id :: c'.tags[id'] == c.tags[id'])
    decreases |c.tags[id]| - i
  {
    if i < |c.tags[id]| {
      var c1 := RefreshInfo(c, id, i);
      RefreshInfoWellFormed(c, id, i);
      RefreshInfoEntries(c, id, i);
      EntryShape(c, id, i);
      MadeSyncs(c1, id, i + 1);
      var c' := Made(c1, id, i + 1).0;
      SameShapeTrans(c, c1, c');
      assert c'.tags[id][i] == c1.tags[id][i];
    }
  }

  /** Some entry from `i` on reads section `s` and has to substitute its texts. */
  ghost predicate Dirty(c: Config, id: ObjectId, i: nat, s: string)
    decreases |c.List(id)| - i
  {
    i < |c.List(id)| && ((Reads(c, id, i, s) && c.Stale(c.List(id)[i])) || Dirty(c, id, i + 1, s))
  }

  lemma {:induction false} DirtyAt(c: Config, id: ObjectId, i: nat, s: string, j: nat)
    requires i <= j && Reads(c, id, j, s) && c.Stale(c.tags[id][j])
    ensures Dirty(c, id, i, s)
    decreases j - i
  {
    if i < j {
      DirtyAt(c, id, i + 1, s, j);
    }
  }

  lemma {:induction false} DirtyLater(c: Config, id: ObjectId, i: nat, j: nat, s: string)
    requires id in c.tags && i < j && i < |c.tags[id]|
    ensures Dirty(RefreshInfo(c, id, i), id, j, s) == Dirty(c, id, j, s)
    decreases |c.tags[id]| - j
  {
    RefreshInfoEntries(c, id, i);
    if j < |c.tags[id]| {
      DirtyLater(c, id, i, j + 1, s);
      assert RefreshInfo(c, id, i).Stale(c.tags[id][j]) == c.Stale(c.tags[id][j]);
    }
  }

  /** All the substitution work of the entries from `i` on in section `s` is for the value `x`. */
  ghost predicate WorkIsFor(c: Config, id: ObjectId, i: int, s: string, x: Long) {
    forall j | i <= j && Reads(c, id, j, s) && c.Stale(c.tags[id][j]) :: c.Value(c.tags[id][j]) == x
  }

  lemma WorkLater(c: Config, id: ObjectId, i: nat, s: string, x: Long)
    requires id in c.tags && i < |c.tags[id]| && WorkIsFor(c, id, i, s, x)
    ensures WorkIsFor(RefreshInfo(c, id, i), id, i + 1, s, x)
  {
    RefreshInfoEntries(c, id, i);
  }

  /** One entry: its column, and the work that is left. */
  lemma EntryColumn(c: Config, id: ObjectId, i: nat, s: string, k: int, side: Side, x: Long)
    requires WellFormed(c) && id in c.tags && i < |c.tags[id]| && HasRange(c, s, k) && WorkIsFor(c, id, i, s, x)
    ensures var c1, work := RefreshInfo(c, id, i), Reads(c, id, i, s) && c.Stale(c.tags[id][i]);
            && HasRange(c1, s, k)
            && Col(c1, s, k, side) == (if work then Refresh(Col(c, s, k, side), x) else Col(c, s, k, side))
            && Dirty(c, id, i, s) == (work || Dirty(c1, id, i + 1, s))
  {
    assert Bound(c, c.tags[id][i]);
    RefreshInfoColumn(c, id, i, s, k, side);
    DirtyLater(c, id, i, i + 1, s);
  }

  /** Then a getTags amounts to one substitution of that value. */
  lemma {:induction false} MadeColumn(c: Config, id: ObjectId, i: nat, s: string, k: int, side: Side, x: Long)
    requires WellFormed(c) && id in c.tags && i <= |c.tags[id]| && HasRange(c, s, k) && WorkIsFor(c, id, i, s, x)
    ensures HasRange(Made(c, id, i).0, s, k)
    ensures Col(Made(c, id, i).0, s, k, side) ==
              if Dirty(c, id, i, s) then Refresh(Col(c, s, k, side), x) else Col(c, s, k, side)
    decreases |c.tags[id]| - i
  {
    if i < |c.tags[id]| {
      var c1 := RefreshInfo(c, id, i);
      RefreshInfoWellFormed(c, id, i);
      RefreshInfoEntries(c, id, i);
      WorkLater(c, id, i, s, x);
      EntryColumn(c, id, i, s, k, side, x);
      RefreshTwice(Col(c, s, k, side), x);
      MadeColumn(c1, id, i + 1, s, k, side, x);
    }
  }

  lemma RefreshTwice(col: Column, x: Long)
    requires |col.text| == |col.orig|
    ensures Refresh(Refresh(col, x), x) == Refresh(col, x)
  {
    var r := Refresh(col, x);
    assert Refresh(r, x).text == r.text;
  }

  // ---- A getTags that does no substitution, and one wrong text in it.

  function ShowFrom(c: Config, id: ObjectId, i: nat): seq<Tag>
    decreases |c.List(id)| - i
  {
    if i >= |c.List(id)| then [] else ShowInfo(c, c.List(id)[i]) + ShowFrom(c, id, i + 1)
  }

  lemma {:induction false} QuietMade(c: Config, id: ObjectId, i: nat)
    requires SyncedFrom(c, id, 0) && i <= |c.tags[id]|
    ensures Made(c, id, i) == (c, ShowFrom(c, id, i))
    decreases |c.tags[id]| - i
  {
    if i < |c.tags[id]| {
      QuietMade(c, id, i + 1);
    }
  }

  lemma {:induction false} ShowRangesDiffer(rs: seq<Range>, value: Long, k: int)
    ensures |ShowRanges(rs, value)| == |IdealRanges(rs, value)|
    ensures 0 <= k < |rs| && rs[k].CheckInRange(value) && rs[k].tags != IdealTags(rs[k], value) ==>
              ShowRanges(rs, value) != IdealRanges(rs, value)
  {
    if rs != [] {
      ShowRangesDiffer(rs[1..], value, k - 1);
      var a := if rs[0].CheckInRange(value) then rs[0].tags else [];
      var a' := if rs[0].CheckInRange(value) then IdealTags(rs[0], value) else [];
      ConcatDiffers(a, ShowRanges(rs[1..], value), a', IdealRanges(rs[1..], value));
    }
  }

  lemma ConcatDiffers<T>(a: seq<T>, b: seq<T>, a': seq<T>, b': seq<T>)
    requires |a| == |a'|
    ensures a + b == a' + b' ==> a == a' && b == b'
  {
    if a + b == a' + b' {
      assert a == (a + b)[..|a|] && b == (a + b)[|a|..];
      assert a' == (a' + b')[..|a'|] && b' == (a' + b')[|a'|..];
    }
  }

  lemma {:induction false} ShowFromDiffers(c: Config, id: ObjectId, i: nat, j: nat)
    requires i <= j < |c.List(id)| && ShowInfo(c, c.List(id)[j]) != IdealInfo(c, c.List(id)[j])
    ensures ShowFrom(c, id, i) != IdealFrom(c, id, i)
    decreases j - i
  {
    var t := c.List(id)[i];
    InfoLength(c, t);
    ConcatDiffers(ShowInfo(c, t), ShowFrom(c, id, i + 1), IdealInfo(c, t), IdealFrom(c, id, i + 1));
    if i < j {
      ShowFromDiffers(c, id, i + 1, j);
    }
  }

  lemma InfoLength(c: Config, t: TagsInfo)
    ensures |ShowInfo(c, t)| == |IdealInfo(c, t)|
  {
    ShowRangesDiffer(c.Ranges(t.section), c.Value(t), 0);
  }

  /** One displayed text that is not the substituted template makes the whole answer wrong. */
  lemma WrongText(c: Config, id: ObjectId, i: nat, s: string, k: int, side: Side, j: nat)
    requires SyncedFrom(c, id, 0) && Reads(c, id, i, s) && HasRange(c, s, k)
    requires c.tagsmap[s][k].CheckInRange(c.Value(c.tags[id][i]))
    requires j < |Col(c, s, k, side).orig|
    requires var col := Col(c, s, k, side);
             col.text[j] != Shown(col.orig[j], c.Value(c.tags[id][i]), col.vmin, col.vmax)
    ensures Got(c, id).1 != Ideal(c, id)
  {
    var r, value := c.tagsmap[s][k], c.Value(c.tags[id][i]);
    assert r.tags[j] != IdealTags(r, value)[j];
    ShowRangesDiffer(c.tagsmap[s], value, k);
    ShowFromDiffers(c, id, 0, i);
    QuietMade(c, id, 0);
  }

  /** A value written with a different number of digits. */
  function Other(v: Long): (w: Long)
    ensures |ToDecimal(w)| != |ToDecimal(v)|
  {
    assert ToDecimal(10) == ToDecimal(1) + ["0123456789"[0]];
    if |ToDecimal(v)| == 1 then 10 else 0
  }

  lemma ShownApart(s: string, v: Long, vmin: Long, vmax: Long)
    requires UsesValue(s)
    ensures Shown(s, v, vmin, vmax) != Shown(s, Other(v), vmin, vmax)
  {
    var a, b := ToDecimal(v), ToDecimal(Other(v));
    RenderGrows(s, if |a| < |b| then a else b, if |a| < |b| then b else a, ToDecimal(vmin), ToDecimal(vmax));
  }

  // ---- The wrong runs.

  /** SetAll and a getTags: every entry read is up to date, a section read for the first time is substituted. */
  lemma SetAndGet(c: Config, id: ObjectId, value: Long, s: string, k: int, side: Side)
    returns (c': Config, ops: seq<Op>)
    requires WellFormed(c) && id in c.tags && HasRange(c, s, k)
    ensures c' == After(c, ops) && WellFormed(c') && SameShape(c, c') && SyncedFrom(c', id, 0)
    ensures forall id' | id' in c.tags && id' != id :: c'.tags[id'] == c.tags[id']
    ensures forall i | 0 <= i < |c.tags[id]| :: c.tags[id][i].sid in c'.smap && c'.smap[c.tags[id][i].sid] == value
    ensures HasRange(c', s, k) && Col(c', s, k, side) in [Col(c, s, k, side), Refresh(Col(c, s, k, side), value)]
    ensures forall i | Reads(c, id, i, s) && !c.tags[id][i].initOk ::
            Col(c', s, k, side) == Refresh(Col(c, s, k, side), value)
  {
    var setAll := SetAll(c.tags[id], value);
    var c1 := After(c, setAll);
    ops := setAll + [Get(id)];
    c' := Got(c1, id).0;
    forall i | 0 <= i < |c.tags[id]| ensures c.tags[id][i].sid in c.smap {
      assert Bound(c, c.tags[id][i]);
    }
    AfterSetAll(c, c.tags[id], value);
    AfterConcat(c, setAll, [Get(id)]);
    assert After(c1, [Get(id)]) == After(Step(c1, Get(id)), []);
    forall id, i | id in c1.tags && 0 <= i < |c1.tags[id]| ensures Bound(c1, c1.tags[id][i]) {
      assert Bound(c, c.tags[id][i]);
    }
    MadeSyncs(c1, id, 0);
    MadeColumn(c1, id, 0, s, k, side, value);
    forall i | Reads(c, id, i, s) && !c.tags[id][i].initOk ensures Dirty(c1, id, 0, s) {
      assert Reads(c1, id, i, s);
      DirtyAt(c1, id, 0, s, i);
    }
  }

  lemma NotCorrect(c: Config, ops: seq<Op>, ops': seq<Op>, id: ObjectId)
    requires var c' := After(After(c, ops), ops'); Got(c', id).1 != Ideal(c', id)
    ensures !Correct(c)
  {
    AfterConcat(c, ops, ops');
  }

  /** The end of a wrong run: the list is up to date, the value is in the range, the text is not its own. */
  lemma WrongAtValue(c: Config, c': Config, id: ObjectId, i: nat, s: string, k: int, side: Side, j: nat)
    requires WellFormed(c') && Reads(c, id, i, s) && SameShape(c, c') && SyncedFrom(c', id, 0) && HasRange(c', s, k)
    requires c.tags[id][i].sid in c'.smap && c'.smap[c.tags[id][i].sid] == Col(c', s, k, side).vmin
    requires j < |Col(c', s, k, side).orig|
    requires var col := Col(c', s, k, side); col.text[j] != Shown(col.orig[j], col.vmin, col.vmin, col.vmax)
    ensures Got(c', id).1 != Ideal(c', id)
  {
    WrongText(c', id, i, s, k, side, j);
  }

  /** A side that is not steady freezes at a value, or on a raw template, that is wrong later. */
  lemma UnsteadyIsWrong(c: Config, id: ObjectId, i: nat, s: string, k: int, side: Side)
    requires WellFormed(c) && Fresh(c) && Reads(c, id, i, s) && HasRange(c, s, k) && !Steady(Col(c, s, k, side))
    ensures !Correct(c)
  {
    var col := Col(c, s, k, side);
    var p := FirstPlain(col.orig);
    var j :| 0 <= j < |col.orig| && j != p && if j < p then UsesValue(col.orig[j]) else HasPlaceholder(col.orig[j]);
    assert Bound(c, c.tags[id][i]) && FreshColumn(ColumnOf(c.tagsmap[s][k], side));
    var c1, ops := SetAndGet(c, id, Other(col.vmin), s, k, side);
    assert Refresh(col, col.vmin).on == false;
    var c2, ops' := SetAndGet(c1, id, col.vmin, s, k, side);
    assert Col(c2, s, k, side) == Refresh(col, Other(col.vmin));
    if j < p {
      ShownApart(col.orig[j], col.vmin, col.vmin, col.vmax);
    } else {
      ShownPlain(col.orig[j], col.vmin, col.vmin, col.vmax);
    }
    WrongAtValue(c, c2, id, i, s, k, side, j);
    NotCorrect(c, ops, ops', id);
  }

  /** A steady side with a %v in it has a placeholder in every template, so every text is the last value. */
  lemma EveryTextFollows(col: Column, j: nat, x: Long, y: Long)
    requires FreshColumn(col) && Steady(col) && j < |col.orig| && UsesValue(col.orig[j])
    ensures var r := Refresh(Refresh(col, x), y);
            r.orig == col.orig && |r.text| == |r.orig| && r.vmin == col.vmin && r.vmax == col.vmax
            && r.text[j] == Shown(col.orig[j], y, col.vmin, col.vmax)
  {
    assert HasPlaceholder(col.orig[j]);
    assert FirstPlain(col.orig) == |col.orig|;
  }

  /** Two lists that read one section: the second one writes its value under the first one. */
  lemma SharedByListsIsWrong(c: Config, id: ObjectId, i: nat, id': ObjectId, i': nat, s: string, k: int, side: Side)
    requires WellFormed(c) && Fresh(c) && Reads(c, id, i, s) && Reads(c, id', i', s) && id != id' && HasRange(c, s, k)
    requires Steady(Col(c, s, k, side)) && !ValueFree(Col(c, s, k, side))
    ensures !Correct(c)
  {
    var col := Col(c, s, k, side);
    var j :| 0 <= j < |col.orig| && UsesValue(col.orig[j]);
    assert FreshColumn(ColumnOf(c.tagsmap[s][k], side));
    var v, w := col.vmin, Other(col.vmin);
    var c1, ops1 := SetAndGet(c, id, v, s, k, side);
    assert Reads(c1, id', i', s) && !c1.tags[id'][i'].initOk;
    var c2, ops2 := SetAndGet(c1, id', w, s, k, side);
    EveryTextFollows(col, j, v, w);
    ShownApart(col.orig[j], v, col.vmin, col.vmax);
    var c3 := SetBack(c, c1, c2, id, v);
    WrongAtValue(c, c3, id, i, s, k, side, j);
    AfterConcat(c, ops1, ops2);
    NotCorrect(c, ops1 + ops2, SetAll(c.tags[id], v), id);
  }

  /** Putting the old values back makes the first list believe that its texts are up to date. */
  lemma SetBack(c: Config, c1: Config, c2: Config, id: ObjectId, v: Long) returns (c3: Config)
    requires WellFormed(c) && WellFormed(c2) && SameShape(c, c1) && SameShape(c1, c2) && id in c.tags
    requires SyncedFrom(c1, id, 0) && c2.tags[id] == c1.tags[id]
    requires forall i | 0 <= i < |c.tags[id]| :: c.tags[id][i].sid in c1.smap && c1.smap[c.tags[id][i].sid] == v
    ensures c3 == After(c2, SetAll(c.tags[id], v)) && WellFormed(c3)
    ensures SameShape(c, c3) && SyncedFrom(c3, id, 0) && c3.tagsmap == c2.tagsmap
    ensures forall i | 0 <= i < |c.tags[id]| :: c.tags[id][i].sid in c3.smap && c3.smap[c.tags[id][i].sid] == v
  {
    c3 := After(c2, SetAll(c.tags[id], v));
    AfterSetAll(c2, c.tags[id], v);
    forall id, i | id in c3.tags && 0 <= i < |c3.tags[id]| ensures Bound(c3, c3.tags[id][i]) {
      assert Bound(c2, c2.tags[id][i]);
    }
    forall i | 0 <= i < |c3.tags[id]| ensures !c3.Stale(c3.tags[id][i]) {
      assert c3.tags[id][i] == c1.tags[id][i] && !c1.Stale(c1.tags[id][i]);
    }
  }

  /** Two entries of one list that read one section: the later value of one is shown for the other. */
  lemma SharedInListIsWrong(c: Config, id: ObjectId, i: nat, i': nat, s: string, k: int, side: Side)
    requires WellFormed(c) && Fresh(c) && Reads(c, id, i, s) && Reads(c, id, i', s) && i != i' && HasRange(c, s, k)
    requires Steady(Col(c, s, k, side)) && !ValueFree(Col(c, s, k, side))
    ensures !Correct(c)
  {
    var col := Col(c, s, k, side);
    var j :| 0 <= j < |col.orig| && UsesValue(col.orig[j]);
    assert FreshColumn(ColumnOf(c.tagsmap[s][k], side));
    var v, w := col.vmin, Other(col.vmin);
    var c1, ops := SetAndGet(c, id, v, s, k, side);
    var c3 := UpdateAndGet(c, c1, id, i, s, k, side, v, w);
    EveryTextFollows(col, j, v, w);
    ShownApart(col.orig[j], v, col.vmin, col.vmax);
    assert c.tags[id][i'].sid != c.tags[id][i].sid;
    WrongAtValue(c, c3, id, i', s, k, side, j);
    NotCorrect(c, ops, [Update(c.tags[id][i].sid, w), Get(id)], id);
  }

  /** A new value for one entry of a list that is up to date, and a getTags. */
  lemma UpdateAndGet(c: Config, c1: Config, id: ObjectId, i: nat, s: string, k: int, side: Side, v: Long, w: Long)
    returns (c3: Config)
    requires WellFormed(c) && WellFormed(c1) && SameShape(c, c1) && Reads(c, id, i, s) && v != w
             && SyncedFrom(c1, id, 0)
    requires HasRange(c1, s, k)
    requires forall i | 0 <= i < |c.tags[id]| :: c.tags[id][i].sid in c1.smap && c1.smap[c.tags[id][i].sid] == v
    ensures c3 == After(c1, [Update(c.tags[id][i].sid, w), Get(id)])
    ensures WellFormed(c3) && SameShape(c, c3) && SyncedFrom(c3, id, 0)
    ensures HasRange(c3, s, k) && Col(c3, s, k, side) == Refresh(Col(c1, s, k, side), w)
    ensures c3.smap == c1.smap[c.tags[id][i].sid := w]
  {
    var c2 := Updated(c1, c.tags[id][i].sid, w);
    OneStale(c, c1, id, i, s, v, w);
    MadeSyncs(c2, id, 0);
    MadeColumn(c2, id, 0, s, k, side, w);
    c3 := Made(c2, id, 0).0;
    var ops := [Update(c.tags[id][i].sid, w), Get(id)];
    assert ops[1..] == [Get(id)] && ops[1..][1..] == [];
    assert After(c1, ops) == After(c2, ops[1..]) == After(c3, []);
  }

  lemma OneStale(c: Config, c1: Config, id: ObjectId, i: nat, s: string, v: Long, w: Long)
    requires WellFormed(c) && WellFormed(c1) && SameShape(c, c1) && Reads(c, id, i, s) && v != w
             && SyncedFrom(c1, id, 0)
    requires forall i | 0 <= i < |c.tags[id]| :: c.tags[id][i].sid in c1.smap && c1.smap[c.tags[id][i].sid] == v
    ensures var c2 := Updated(c1, c.tags[id][i].sid, w);
            WellFormed(c2) && WorkIsFor(c2, id, 0, s, w) && Dirty(c2, id, 0, s)
  {
    var c2 := Updated(c1, c.tags[id][i].sid, w);
    forall id, i | id in c2.tags && 0 <= i < |c2.tags[id]| ensures Bound(c2, c2.tags[id][i]) {
      assert Bound(c1, c1.tags[id][i]);
    }
    forall j | 0 <= j < |c2.tags[id]| && c2.Stale(c2.tags[id][j]) ensures c2.Value(c2.tags[id][j]) == w {
      assert !c1.Stale(c1.tags[id][j]);
    }
    assert !c1.Stale(c1.tags[id][i]);
    assert Reads(c2, id, i, s) && c2.Stale(c2.tags[id][i]);
    DirtyAt(c2, id, 0, s, i);
  }

  /** getTags agrees with the uncached specification in every run exactly for the sound configurations. */
  lemma CorrectIffSound(c: Config)
    requires WellFormed(c) && Fresh(c)
    ensures Correct(c) <==> Sound(c)
  {
    if Sound(c) {
      SoundIsCorrect(c);
    } else if id, i, s, k, side :| Reads(c, id, i, s) && HasRange(c, s, k) && !Steady(Col(c, s, k, side)) {
      UnsteadyIsWrong(c, id, i, s, k, side);
    } else {
      var id, i, id', i', s, k, side :| Reads(c, id, i, s) && Reads(c, id', i', s) && (id, i) != (id', i')
                                        && HasRange(c, s, k) && !ValueFree(Col(c, s, k, side));
      if id != id' {
        SharedByListsIsWrong(c, id, i, id', i', s, k, side);
      } else {
        SharedInListIsWrong(c, id, i, i', s, k, side);
      }
    }
  }

  /** The documented range is not steady: its text without placeholder stops the substitution of a %v. */
  lemma DocumentedIsUnsteady(vmin: Long, vmax: Long)
    ensures !Steady(ColumnOf(DocumentedRange(vmin, vmax), Values))
  {
    DocumentedColumns(vmin, vmax);
    DocumentedFirstPlain();
    assert UsesValue(["%v", "%min", "text"][0]);
  }

  /** So every configuration in which some list reads it has a run with a wrong answer. */
  lemma DocumentedIsWrong(c: Config, id: ObjectId, i: nat, s: string, k: int)
    requires WellFormed(c) && Fresh(c) && Reads(c, id, i, s) && HasRange(c, s, k)
    requires var r := c.tagsmap[s][k]; r == DocumentedRange(r.vmin, r.vmax)
    ensures !Correct(c)
  {
    var r := c.tagsmap[s][k];
    DocumentedIsUnsteady(r.vmin, r.vmax);
    UnsteadyIsWrong(c, id, i, s, k, Values);
  }
}
