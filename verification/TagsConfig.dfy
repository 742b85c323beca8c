/** ClickHouseTagsConfig: controlling-sensor states, shared range sections and per-sensor tag lists. */
module TagsConfig {
  import opened TagText
  import opened TagsSetup

  /** The three maps of the class. */
  datatype Config = Config(smap: map<ObjectId, Long>, tagsmap: map<string, seq<Range>>,
                           tags: map<ObjectId, seq<TagsInfo>>)
  {
    function Value(t: TagsInfo): Long {
      if t.sid in smap then smap[t.sid] else 0
    }

    function Ranges(section: string): seq<Range> {
      if section in tagsmap then tagsmap[section] else []
    }

    function List(id: ObjectId): seq<TagsInfo> {
      if id in tags then tags[id] else []
    }

    /** The cached text of this entry has to be substituted again. */
    predicate Stale(t: TagsInfo) {
      t.anyTags == [] && (Value(t) != t.prevValue || !t.initOk)
    }
  }

  /** Every iterator points into its map, a list has one entry per controlling sensor, bounds are ordered. */
  ghost predicate WellFormed(c: Config) {
    && (forall id, i | id in c.tags && 0 <= i < |c.tags[id]| :: Bound(c, c.tags[id][i]))
    && (forall id, i, j | id in c.tags && 0 <= i < j < |c.tags[id]| :: c.tags[id][i].sid != c.tags[id][j].sid)
    && (forall s, k | s in c.tagsmap && 0 <= k < |c.tagsmap[s]| :: c.tagsmap[s][k].vmin <= c.tagsmap[s][k].vmax)
  }

  ghost predicate Bound(c: Config, t: TagsInfo) {
    t.sid in c.smap && (t.anyTags == [] ==> t.section in c.tagsmap)
  }

  /** Nothing has been substituted yet. */
  ghost predicate Fresh(c: Config) {
    && (forall id, i | id in c.tags && 0 <= i < |c.tags[id]| :: !c.tags[id][i].initOk)
    && (forall s, k, side | s in c.tagsmap && 0 <= k < |c.tagsmap[s]| :: FreshColumn(ColumnOf(c.tagsmap[s][k], side)))
  }

  /** Replacing one list keeps the configuration well formed if the new list is. */
  lemma StillWellFormed(c: Config, c': Config, id: ObjectId)
    requires WellFormed(c) && c'.tagsmap == c.tagsmap && c.smap.Keys <= c'.smap.Keys
    requires id in c'.tags && c' == c'.(tags := c.tags[id := c'.tags[id]])
    requires forall i | 0 <= i < |c'.tags[id]| :: Bound(c', c'.tags[id][i])
    requires forall i, j | 0 <= i < j < |c'.tags[id]| :: c'.tags[id][i].sid != c'.tags[id][j].sid
    ensures WellFormed(c')
    ensures Fresh(c) && (forall i | 0 <= i < |c'.tags[id]| :: !c'.tags[id][i].initOk) ==> Fresh(c')
  {
    forall id', i | id' in c'.tags && 0 <= i < |c'.tags[id']| ensures Bound(c', c'.tags[id'][i]) {
      assert id' != id ==> Bound(c, c.tags[id'][i]);
    }
  }

  /** One item of initFromTagsList: the entry is bound, and a new state starts at 0. */
  function WithItem(c: Config, myId: ObjectId, sid: ObjectId, values: string): Config {
    Config(if sid in c.smap then c.smap else c.smap[sid := 0], c.tagsmap,
           c.tags[myId := Bind(c.List(myId), sid, values)])
  }

  function WithItems(c: Config, myId: ObjectId, items: seq<ListItem>): Config {
    if items == [] then c
    else
      var n := |items| - 1;
      var c' := WithItems(c, myId, items[..n]);
      if items[n].sid.None? then c' else WithItem(c', myId, items[n].sid.value, items[n].values)
  }

  lemma WithItemWellFormed(c: Config, myId: ObjectId, sid: ObjectId, values: string)
    requires WellFormed(c) && values in c.tagsmap
    ensures WellFormed(WithItem(c, myId, sid, values))
    ensures Fresh(c) ==> Fresh(WithItem(c, myId, sid, values))
  {
    var c', lst := WithItem(c, myId, sid, values), c.List(myId);
    forall i | 0 <= i < |c'.tags[myId]| ensures Bound(c', c'.tags[myId][i]) {
      assert i < |lst| ==> Bound(c, c.tags[myId][i]);
    }
    StillWellFormed(c, c', myId);
  }

  /** The item names a known sensor and a loaded section. */
  predicate Resolved(c: Config, item: ListItem) {
    item.sid.Some? && item.values in c.tagsmap
  }

  /** The position of the first item from `k` on that does not. */
  function FirstUnresolved(c: Config, items: seq<ListItem>, k: nat): (n: nat)
    requires k <= |items|
    ensures k <= n <= |items| && (n < |items| ==> !Resolved(c, items[n]))
    ensures forall i | k <= i < n :: Resolved(c, items[i])
    decreases |items| - k
  {
    if k < |items| && Resolved(c, items[k]) then FirstUnresolved(c, items, k + 1) else k
  }

  lemma OneMoreItem(c: Config, myId: ObjectId, items: seq<ListItem>, n: nat)
    requires n < |items| && items[n].sid.Some?
    ensures WithItems(c, myId, items[..n + 1]) ==
              WithItem(WithItems(c, myId, items[..n]), myId, items[n].sid.value, items[n].values)
  {
    assert items[..n + 1][..n] == items[..n];
  }

  /** Only the list of `myId` changes, and as the items say. */
  lemma {:induction false} WithItemsList(c: Config, myId: ObjectId, items: seq<ListItem>)
    requires AllKnown(items)
    ensures WithItems(c, myId, items).tags ==
              if items == [] then c.tags else c.tags[myId := BindAll(c.List(myId), items)]
  {
    if items != [] {
      var n := |items| - 1;
      WithItemsList(c, myId, items[..n]);
      assert WithItems(c, myId, items[..n]).List(myId) == BindAll(c.List(myId), items[..n]);
    }
  }

  /** Some item names the sensor. */
  ghost predicate Named(items: seq<ListItem>, s: ObjectId) {
    exists n :: 0 <= n < |items| && items[n].sid == Some(s)
  }

  /** Registered states keep their values, a new one starts at 0. */
  lemma {:induction false} WithItemsStates(c: Config, myId: ObjectId, items: seq<ListItem>, s: ObjectId)
    ensures var smap := WithItems(c, myId, items).smap;
            && (s in smap <==> s in c.smap || Named(items, s))
            && (s in smap ==> smap[s] == if s in c.smap then c.smap[s] else 0)
  {
    if items != [] {
      var n := |items| - 1;
      WithItemsStates(c, myId, items[..n], s);
      NamedOneMore(items, s);
    }
  }

  lemma NamedOneMore(items: seq<ListItem>, s: ObjectId)
    requires items != []
    ensures Named(items, s) <==> Named(items[..|items| - 1], s) || items[|items| - 1].sid == Some(s)
  {
    var n := |items| - 1;
    assert forall i | 0 <= i < n :: items[..n][i] == items[i];
  }

  function RefreshRanges(rs: seq<Range>, value: Long): (r: seq<Range>)
    ensures |r| == |rs| && forall k | 0 <= k < |rs| :: r[k] == RefreshRange(rs[k], value)
  {
    seq(|rs|, k requires 0 <= k < |rs| => RefreshRange(rs[k], value))
  }

  /** The substitution work of makeTags for entry `i` of the list of `id`. */
  function RefreshInfo(c: Config, id: ObjectId, i: nat): Config
    requires id in c.tags && i < |c.tags[id]|
  {
    var t := c.tags[id][i];
    if !c.Stale(t) then c
    else Config(c.smap, c.tagsmap[t.section := RefreshRanges(c.Ranges(t.section), c.Value(t))],
                c.tags[id := c.tags[id][i := t.(initOk := true, prevValue := c.Value(t))]])
  }

  function ShowRanges(rs: seq<Range>, value: Long): seq<Tag> {
    if rs == [] then []
    else (if rs[0].CheckInRange(value) then rs[0].tags else []) + ShowRanges(rs[1..], value)
  }

  /** The tags one entry contributes, with the texts as they are now. */
  function ShowInfo(c: Config, t: TagsInfo): seq<Tag> {
    if t.anyTags != [] then (if c.Value(t) != 0 then t.anyTags else [])
    else ShowRanges(c.Ranges(t.section), c.Value(t))
  }

  /** makeTags from entry `i` on: the entries are refreshed and read one after the other. */
  function Made(c: Config, id: ObjectId, i: nat): (r: (Config, seq<Tag>))
    requires id in c.tags && i <= |c.tags[id]|
    decreases |c.tags[id]| - i
  {
    if i == |c.tags[id]| then (c, [])
    else
      var c' := RefreshInfo(c, id, i);
      var (end, rest) := Made(c', id, i + 1);
      (end, ShowInfo(c', c'.tags[id][i]) + rest)
  }

  function Got(c: Config, id: ObjectId): (Config, seq<Tag>) {
    if id in c.tags then Made(c, id, 0) else (c, [])
  }

  function Updated(c: Config, id: ObjectId, value: Long): Config {
    if id in c.smap then c.(smap := c.smap[id := value]) else c
  }

  class ClickHouseTagsConfig {
    var smap: map<ObjectId, Long>
    var tagsmap: map<string, seq<Range>>
    var tags: map<ObjectId, seq<TagsInfo>>

    ghost function State(): Config
      reads this
    {
      Config(smap, tagsmap, tags)
    }

    constructor ()
      ensures State() == Config(map[], map[], map[])
    {
      smap, tagsmap, tags := map[], map[], map[];
    }

    /** loadTagsMap: the sections by name, the first of several with one name. Done before any list is built
        the configuration is well formed; a list built before keeps iterators into the old sections. */
    method LoadTagsMap(sections: seq<(string, seq<RangeItem>)>)
      modifies this`tagsmap
      ensures old(tags) == map[] ==> WellFormed(State()) && Fresh(State())
      ensures forall s :: s in tagsmap <==> exists n :: 0 <= n < |sections| && sections[n].0 == s
      ensures forall n | 0 <= n < |sections| && (forall m | 0 <= m < n :: sections[m].0 != sections[n].0) ::
                sections[n].0 in tagsmap && AllBuiltFrom(tagsmap[sections[n].0], sections[n].1)
    {
      var tmap: map<string, seq<Range>> := map[];
      ghost var from: map<string, seq<RangeItem>> := map[];
      for n := 0 to |sections|
        invariant tmap.Keys == from.Keys
        invariant forall s :: s in from <==> exists m :: 0 <= m < n && sections[m].0 == s
        invariant forall m | 0 <= m < n && (forall l | 0 <= l < m :: sections[l].0 != sections[m].0) ::
                  sections[m].0 in from && from[sections[m].0] == sections[m].1
        invariant forall s | s in tmap :: AllBuiltFrom(tmap[s], from[s])
      {
        var ranges := InitRangeList(sections[n].1);
        if sections[n].0 !in tmap {
          tmap := tmap[sections[n].0 := ranges];
          from := from[sections[n].0 := sections[n].1];
        }
      }
      tagsmap := tmap;
      forall s, k | s in tagsmap && 0 <= k < |tagsmap[s]|
        ensures tagsmap[s][k].vmin <= tagsmap[s][k].vmax && forall side :: FreshColumn(ColumnOf(tagsmap[s][k], side))
      {
        assert AllBuiltFrom(tagsmap[s], from[s]);
        BuiltIsFresh(tagsmap[s][k], from[s][k]);
      }
    }

    /** addState: a state that is already registered keeps its value. */
    method AddState(sid: ObjectId, defval: Long)
      modifies this`smap
      ensures smap == if sid in old(smap) then old(smap) else old(smap)[sid := defval]
    {
      if sid !in smap {
        smap := smap[sid := defval];
      }
    }

    /** initFromTags: the list becomes one entry that shows its tags while the sensor is not zero. Without a
        tag the entry would read a section, but it is bound to none. */
    method InitFromTags(myId: ObjectId, sid: Option<ObjectId>, anyTags: seq<Tag>, defvalue: Long) returns (ok: bool)
      requires WellFormed(State())
      modifies this`smap, this`tags
      ensures ok == sid.Some? && (!ok ==> State() == old(State()))
      ensures ok ==> tags == old(tags)[myId := [TagsInfo(anyTags, "", sid.value, 0, false)]]
      ensures ok ==> smap == if sid.value in old(smap) then old(smap) else old(smap)[sid.value := defvalue]
      ensures !ok || anyTags != [] ==> WellFormed(State()) && (old(Fresh(State())) ==> Fresh(State()))
    {
      ok := sid.Some?;
      if ok {
        AddState(sid.value, defvalue);
        tags := tags[myId := [TagsInfo(anyTags, "", sid.value, 0, false)]];
        if anyTags != [] {
          StillWellFormed(old(State()), State(), myId);
        }
      }
    }

    /** initFromValues: the list becomes one entry that reads a section. */
    method InitFromValues(myId: ObjectId, sid: Option<ObjectId>, values: string, defvalue: Long) returns (ok: bool)
      requires WellFormed(State())
      modifies this`smap, this`tags
      ensures ok == (sid.Some? && values in tagsmap) && (!ok ==> State() == old(State()))
      ensures ok ==> tags == old(tags)[myId := [TagsInfo([], values, sid.value, 0, false)]]
      ensures ok ==> smap == if sid.value in old(smap) then old(smap) else old(smap)[sid.value := defvalue]
      ensures WellFormed(State()) && (old(Fresh(State())) ==> Fresh(State()))
    {
      ok := sid.Some? && values in tagsmap;
      if ok {
        AddState(sid.value, defvalue);
        tags := tags[myId := [TagsInfo([], values, sid.value, 0, false)]];
        StillWellFormed(old(State()), State(), myId);
      }
    }

    /** initFromTagsList: one addTagsInfo for each item, up to the first that names no sensor or section. */
    method InitFromTagsList(myId: ObjectId, items: seq<ListItem>) returns (ok: bool, done: nat)
      requires WellFormed(State())
      modifies this`smap, this`tags
      ensures done == FirstUnresolved(old(State()), items, 0) && ok == (done == |items|)
      ensures State() == WithItems(old(State()), myId, items[..done])
      ensures WellFormed(State()) && (old(Fresh(State())) ==> Fresh(State()))
    {
      ok, done := true, 0;
      ghost var start := State();
      while done < |items|
        invariant done <= |items| && ok
        invariant FirstUnresolved(start, items, done) == FirstUnresolved(start, items, 0)
        invariant tagsmap == start.tagsmap
        invariant State() == WithItems(start, myId, items[..done])
        invariant WellFormed(State()) && (Fresh(start) ==> Fresh(State()))
      {
        var item := items[done];
        if item.sid.None? || item.values !in tagsmap {
          return false, done;
        }
        BindItem(myId, item.sid.value, item.values);
        OneMoreItem(start, myId, items, done);
        done := done + 1;
      }
    }

    /** One turn of the loop: the list, created when it is missing, gets the entry bound to the section. */
    method BindItem(myId: ObjectId, sid: ObjectId, values: string)
      requires WellFormed(State()) && values in tagsmap
      modifies this`smap, this`tags
      ensures State() == WithItem(old(State()), myId, sid, values)
      ensures WellFormed(State()) && (old(Fresh(State())) ==> Fresh(State()))
    {
      WithItemWellFormed(State(), myId, sid, values);
      var lst := if myId in tags then tags[myId] else [];
      forall i | 0 <= i < |lst| ensures lst[i].sid in smap {
        assert Bound(State(), tags[myId][i]);
      }
      lst := AddTagsInfo(lst, sid, values);
      tags := tags[myId := lst];
    }

    /** addTagsInfo, and the section it is bound to. */
    method AddTagsInfo(lst: seq<TagsInfo>, sid: ObjectId, values: string) returns (lst': seq<TagsInfo>)
      modifies this`smap
      ensures lst' == Bind(lst, sid, values)
      ensures smap == if sid in old(smap) || IndexOf(lst, sid) < |lst| then old(smap) else old(smap)[sid := 0]
    {
      var i := 0;
      while i < |lst| && lst[i].sid != sid
        invariant i <= |lst| && forall j | 0 <= j < i :: lst[j].sid != sid
      {
        i := i + 1;
      }
      assert i == IndexOf(lst, sid);
      if i < |lst| {
        return lst[i := lst[i].(section := values)];
      }
      AddState(sid, 0);
      lst' := lst + [TagsInfo([], values, sid, 0, false)];
    }

    /** updateTags: the new value of a controlling sensor; false for any other sensor. */
    method UpdateTags(id: ObjectId, value: Long) returns (ok: bool)
      modifies this`smap
      ensures ok == (id in old(smap))
      ensures State() == Updated(old(State()), id, value)
    {
      ok := id in smap;
      if ok {
        smap := smap[id := value];
      }
    }

    /** getTags. */
    method GetTags(id: ObjectId) returns (r: seq<Tag>)
      requires WellFormed(State())
      modifies this`tagsmap, this`tags
      ensures State() == Got(old(State()), id).0 && r == Got(old(State()), id).1
    {
      if id !in tags {
        return [];
      }
      r := MakeTags(id);
    }

    /** makeTags: the list of sensor `id`. */
    method MakeTags(id: ObjectId) returns (r: seq<Tag>)
      requires WellFormed(State()) && id in tags
      modifies this`tagsmap, this`tags
      ensures State() == Made(old(State()), id, 0).0 && r == Made(old(State()), id, 0).1
    {
      r := [];
      ghost var goal := Made(State(), id, 0);
      ghost var n := |tags[id]|;
      var i := 0;
      while i < |tags[id]|
        invariant id in tags && i <= |tags[id]| == n && smap == old(smap)
        invariant forall k | i <= k < n :: Bound(State(), tags[id][k])
        invariant goal.0 == Made(State(), id, i).0 && goal.1 == r + Made(State(), id, i).1
        decreases n - i
      {
        var shown := MakeInfo(id, i);
        r := r + shown;
        i := i + 1;
      }
    }

    /** The body of the loop over the list in makeTags. */
    method MakeInfo(id: ObjectId, i: nat) returns (r: seq<Tag>)
      requires id in tags && i < |tags[id]| && Bound(State(), tags[id][i])
      modifies this`tagsmap, this`tags
      ensures State() == RefreshInfo(old(State()), id, i)
      ensures r == ShowInfo(State(), tags[id][i])
    {
      r := [];
      var t := tags[id][i];
      var value := smap[t.sid];
      if t.anyTags != [] {
        if value != 0 {
          r := t.anyTags;
        }
      } else {
        var stale := value != t.prevValue || !t.initOk;
        var rs;
        rs, r := MakeRanges(tagsmap[t.section], value, stale);
        tagsmap := tagsmap[t.section := rs];
        if stale {
          tags := tags[id := tags[id][i := t.(initOk := true, prevValue := value)]];
        }
      }
    }
  }

  /** The loop over the ranges of a section in makeTags. */
  method MakeRanges(from: seq<Range>, value: Long, stale: bool) returns (rs: seq<Range>, r: seq<Tag>)
    ensures rs == if stale then RefreshRanges(from, value) else from
    ensures r == ShowRanges(rs, value)
  {
    rs, r := [], [];
    for k := 0 to |from|
      invariant |rs| == k
      invariant forall j | 0 <= j < k :: rs[j] == if stale then RefreshRange(from[j], value) else from[j]
      invariant r == ShowRanges(rs, value)
    {
      var range := from[k];
      if stale {
        range := UpdateText(range, value);
      }
      ShowOneMore(rs, range, value);
      rs := rs + [range];
      if range.CheckInRange(value) {
        r := r + range.tags;
      }
    }
  }

  lemma {:induction false} ShowOneMore(rs: seq<Range>, range: Range, value: Long)
    ensures ShowRanges(rs + [range], value) ==
              ShowRanges(rs, value) + (if range.CheckInRange(value) then range.tags else [])
  {
    if rs != [] {
      ShowOneMore(rs[1..], range, value);
      assert (rs + [range])[1..] == rs[1..] + [range];
    }
  }
}
