/** How ClickHouseTagsConfig builds its ranges and tag lists from parsed configuration items. */
module TagsSetup {
  import opened TagText

  type ObjectId = int

  datatype Option<T> = None | Some(value: T)

  /** One entry of a sensor's tag list. `section` and `sid` stand for the iterators vit and it. */
  datatype TagsInfo = TagsInfo(anyTags: seq<Tag>, section: string, sid: ObjectId, prevValue: Long, initOk: bool)

  /** One <item> of a section, already parsed: its bounds (None is "min" or "max") and key=value pairs. */
  datatype RangeItem = ValueItem(value: Long, pairs: seq<(string, string)>)
                     | BoundsItem(lo: Option<Long>, hi: Option<Long>, pairs: seq<(string, string)>)

  /** One <sensor> of a <clickhouse_tags> list: the controlling sensor, if its name is known, and the section. */
  datatype ListItem = ListItem(sid: Option<ObjectId>, values: string)

  const LONG_MIN: Long := -0x8000_0000_0000_0000
  const LONG_MAX: Long := 0x7fff_ffff_ffff_ffff

  function ParseTags(pairs: seq<(string, string)>): seq<Tag> {
    seq(|pairs|, i requires 0 <= i < |pairs| => Tag(pairs[i].0, pairs[i].1, pairs[i].0, pairs[i].1))
  }

  /** The values an item is meant for: one value, or everything between two bounds in either order. */
  predicate MeantFor(item: RangeItem, v: Long) {
    match item
    case ValueItem(value, _) => v == value
    case BoundsItem(lo, hi, _) =>
      var a, b := if lo.Some? then lo.value else LONG_MIN, if hi.Some? then hi.value else LONG_MAX;
      a <= v <= b || b <= v <= a
  }

  ghost predicate BuiltFrom(r: Range, item: RangeItem) {
    && r.vmin <= r.vmax && (forall v: Long :: r.CheckInRange(v) <==> MeantFor(item, v))
    && r.tags == ParseTags(item.pairs) && r.needReplaceKey && r.needReplaceVal
  }

  ghost predicate AllBuiltFrom(ranges: seq<Range>, items: seq<RangeItem>) {
    |ranges| == |items| && forall k | 0 <= k < |items| :: BuiltFrom(ranges[k], items[k])
  }

  /** initRangeList: every range has ordered bounds and nothing substituted. */
  method InitRangeList(items: seq<RangeItem>) returns (ranges: seq<Range>)
    ensures AllBuiltFrom(ranges, items)
  {
    ranges := [];
    for n := 0 to |items|
      invariant |ranges| == n && forall k | 0 <= k < n :: BuiltFrom(ranges[k], items[k])
    {
      var r;
      match items[n] {
        case ValueItem(value, pairs) =>
          r := Range(value, value, ParseTags(pairs), true, true);
        case BoundsItem(lo, hi, pairs) =>
          var vmin := if lo.Some? then lo.value else LONG_MIN;
          var vmax := if hi.Some? then hi.value else LONG_MAX;
          if vmin > vmax {
            vmin, vmax := vmax, vmin;
          }
          r := Range(vmin, vmax, ParseTags(pairs), true, true);
      }
      assert BuiltFrom(r, items[n]);
      ranges := ranges + [r];
    }
  }

  /** The first half of a pair is the key, the second the value, in the text and in the template. */
  lemma ParsedPairs(r: Range, item: RangeItem)
    requires BuiltFrom(r, item)
    ensures |r.tags| == |item.pairs|
    ensures forall i | 0 <= i < |r.tags| ::
              && r.tags[i].key == r.tags[i].origKey == item.pairs[i].0
              && r.tags[i].value == r.tags[i].origValue == item.pairs[i].1
  {
  }

  /** "min" and "max" leave a range open on their side. */
  lemma OpenRanges(r: Range, item: RangeItem, v: Long)
    requires BuiltFrom(r, item) && item.BoundsItem?
    ensures item.lo.None? && item.hi.None? ==> r.CheckInRange(v)
    ensures item.lo.None? && item.hi.Some? ==> (r.CheckInRange(v) <==> v <= item.hi.value)
    ensures item.lo.Some? && item.hi.None? ==> (r.CheckInRange(v) <==> item.lo.value <= v)
  {
    assert r.CheckInRange(v) <==> MeantFor(item, v);
  }

  lemma BuiltIsFresh(r: Range, item: RangeItem)
    requires BuiltFrom(r, item)
    ensures r.vmin <= r.vmax && forall side :: FreshColumn(ColumnOf(r, side))
  {
    forall side ensures FreshColumn(ColumnOf(r, side)) {
      var col := ColumnOf(r, side);
      assert col.text == col.orig;
    }
  }

  /** The first entry controlled by `sid`, or the length of the list. */
  function IndexOf(lst: seq<TagsInfo>, sid: ObjectId): (i: nat)
    ensures i <= |lst| && (i < |lst| ==> lst[i].sid == sid)
    ensures forall j | 0 <= j < i :: lst[j].sid != sid
  {
    if lst == [] || lst[0].sid == sid then 0 else 1 + IndexOf(lst[1..], sid)
  }

  /** One turn of the loop in initFromTagsList: find or append the entry of `sid`, then bind its section. */
  function Bind(lst: seq<TagsInfo>, sid: ObjectId, values: string): seq<TagsInfo> {
    var i := IndexOf(lst, sid);
    if i < |lst| then lst[i := lst[i].(section := values)] else lst + [TagsInfo([], values, sid, 0, false)]
  }

  /** Of an entry that is there only the section changes, a new one comes last; all others stay as they are. */
  lemma BindExactly(lst: seq<TagsInfo>, sid: ObjectId, values: string)
    ensures var lst' := Bind(lst, sid, values);
            if i :| 0 <= i < |lst| && lst[i].sid == sid && forall j | 0 <= j < i :: lst[j].sid != sid then
              && |lst'| == |lst| && (forall j | 0 <= j < |lst| && j != i :: lst'[j] == lst[j])
              && lst'[i].section == values && lst'[i].sid == sid && lst'[i].anyTags == lst[i].anyTags
              && lst'[i].prevValue == lst[i].prevValue && lst'[i].initOk == lst[i].initOk
            else lst' == lst + [TagsInfo([], values, sid, 0, false)]
  {
  }

  predicate AllKnown(items: seq<ListItem>) {
    forall n | 0 <= n < |items| :: items[n].sid.Some?
  }

  function BindAll(lst: seq<TagsInfo>, items: seq<ListItem>): seq<TagsInfo> {
    if items == [] then lst
    else
      var n := |items| - 1;
      var lst' := BindAll(lst, items[..n]);
      if items[n].sid.None? then lst' else Bind(lst', items[n].sid.value, items[n].values)
  }

  /** Item `n` is the first (the last) one for its sensor. */
  ghost predicate FirstFor(items: seq<ListItem>, n: int, sid: ObjectId) {
    0 <= n < |items| && items[n].sid == Some(sid) && forall m | 0 <= m < n :: items[m].sid != Some(sid)
  }

  ghost predicate LastFor(items: seq<ListItem>, n: int, sid: ObjectId) {
    0 <= n < |items| && items[n].sid == Some(sid) && forall m | n < m < |items| :: items[m].sid != Some(sid)
  }

  /** `at` gives for each entry its first item; the entries are in that order. */
  ghost predicate InFirstOrder(lst: seq<TagsInfo>, items: seq<ListItem>, at: seq<nat>) {
    && |at| == |lst| && (forall i, j | 0 <= i < j < |at| :: at[i] < at[j])
    && (forall i | 0 <= i < |lst| :: FirstFor(items, at[i], lst[i].sid))
  }

  ghost predicate CoversAll(lst: seq<TagsInfo>, items: seq<ListItem>)
    requires AllKnown(items)
  {
    forall n | 0 <= n < |items| :: IndexOf(lst, items[n].sid.value) < |lst|
  }

  ghost predicate BoundLast(lst: seq<TagsInfo>, items: seq<ListItem>) {
    forall i, n | 0 <= i < |lst| && LastFor(items, n, lst[i].sid) :: lst[i].section == items[n].values
  }

  ghost predicate NoAnyTags(lst: seq<TagsInfo>) {
    forall i | 0 <= i < |lst| :: lst[i].anyTags == []
  }

  lemma BindAddsNoTags(lst: seq<TagsInfo>, sid: ObjectId, values: string)
    requires NoAnyTags(lst)
    ensures NoAnyTags(Bind(lst, sid, values))
  {
  }

  lemma CoversOneMore(was: seq<TagsInfo>, items: seq<ListItem>)
    requires items != [] && AllKnown(items) && CoversAll(was, items[..|items| - 1])
    ensures var it := items[|items| - 1]; CoversAll(Bind(was, it.sid.value, it.values), items)
  {
    var last := |items| - 1;
    var lst := Bind(was, items[last].sid.value, items[last].values);
    forall n | 0 <= n < |items| ensures IndexOf(lst, items[n].sid.value) < |lst| {
      var i := IndexOf(was, items[n].sid.value);
      assert n < last ==> items[..last][n] == items[n];
      assert lst[i].sid == items[n].sid.value;
    }
  }

  lemma OrderOneMore(was: seq<TagsInfo>, items: seq<ListItem>, at: seq<nat>) returns (at': seq<nat>)
    requires items != [] && AllKnown(items) && CoversAll(was, items[..|items| - 1])
             && InFirstOrder(was, items[..|items| - 1], at)
    ensures var it := items[|items| - 1]; InFirstOrder(Bind(was, it.sid.value, it.values), items, at')
  {
    var last := |items| - 1;
    var init, sid := items[..last], items[last].sid.value;
    forall i | 0 <= i < |was| ensures FirstFor(items, at[i], was[i].sid) {
      assert FirstFor(init, at[i], was[i].sid);
    }
    at' := at;
    if IndexOf(was, sid) == |was| {
      forall m | 0 <= m < last ensures items[m].sid != Some(sid) {
        assert IndexOf(was, init[m].sid.value) < |was|;
      }
      at' := at + [last];
    }
  }

  lemma LastOneMore(was: seq<TagsInfo>, items: seq<ListItem>, at: seq<nat>)
    requires items != [] && AllKnown(items) && InFirstOrder(was, items[..|items| - 1], at)
             && BoundLast(was, items[..|items| - 1])
    ensures var it := items[|items| - 1]; BoundLast(Bind(was, it.sid.value, it.values), items)
  {
    var last := |items| - 1;
    var lst := Bind(was, items[last].sid.value, items[last].values);
    FirstOrderIsDistinct(was, items[..last], at);
    forall i, n | 0 <= i < |lst| && LastFor(items, n, lst[i].sid) ensures lst[i].section == items[n].values {
      LastAt(was, items, i, n);
    }
  }

  lemma LastAt(was: seq<TagsInfo>, items: seq<ListItem>, i: nat, n: int)
    requires items != [] && AllKnown(items) && BoundLast(was, items[..|items| - 1])
    requires forall i, j | 0 <= i < |was| && 0 <= j < |was| && was[i].sid == was[j].sid :: i == j
    requires var it := items[|items| - 1]; var lst := Bind(was, it.sid.value, it.values);
             i < |lst| && LastFor(items, n, lst[i].sid)
    ensures var it := items[|items| - 1]; Bind(was, it.sid.value, it.values)[i].section == items[n].values
  {
    var last := |items| - 1;
    var init, k := items[..last], IndexOf(was, items[last].sid.value);
    if i != k && n < last {
      forall m | n < m < last ensures init[m].sid != Some(was[i].sid) {
        assert items[m] == init[m];
      }
      assert LastFor(init, n, was[i].sid);
    }
  }

  lemma FirstOrderIsDistinct(lst: seq<TagsInfo>, items: seq<ListItem>, at: seq<nat>)
    requires InFirstOrder(lst, items, at)
    ensures forall i, j | 0 <= i < |lst| && 0 <= j < |lst| && lst[i].sid == lst[j].sid :: i == j
  {
    forall i, j | 0 <= i < |lst| && 0 <= j < |lst| && lst[i].sid == lst[j].sid ensures i == j {
      assert FirstFor(items, at[i], lst[i].sid) && FirstFor(items, at[j], lst[j].sid);
    }
  }

  /** Starting from no entry, the list has exactly one entry for each sensor named, in the order of first
      occurrence, and each entry reads the section named last for its sensor. */
  lemma {:induction false} BindAllFromNothing(items: seq<ListItem>) returns (lst: seq<TagsInfo>, at: seq<nat>)
    requires AllKnown(items)
    ensures lst == BindAll([], items)
    ensures InFirstOrder(lst, items, at) && CoversAll(lst, items) && BoundLast(lst, items) && NoAnyTags(lst)
  {
    lst, at := [], [];
    if items != [] {
      var n := |items| - 1;
      var was;
      was, at := BindAllFromNothing(items[..n]);
      lst := Bind(was, items[n].sid.value, items[n].values);
      BindAddsNoTags(was, items[n].sid.value, items[n].values);
      CoversOneMore(was, items);
      LastOneMore(was, items, at);
      at := OrderOneMore(was, items, at);
    }
  }
}
