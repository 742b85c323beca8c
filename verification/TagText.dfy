/** ClickHouseTagsConfig::Tag and ::Range: tag templates and the text last substituted into them. */
module TagText {
  import opened Text

  /** The 64-bit `long` of sensor values and range bounds. */
  type Long = x: int | -0x8000_0000_0000_0000 <= x < 0x8000_0000_0000_0000

  datatype Tag = Tag(key: string, value: string, origKey: string, origValue: string)

  datatype Range = Range(vmin: Long, vmax: Long, tags: seq<Tag>, needReplaceKey: bool, needReplaceVal: bool) {
    predicate CheckInRange(value: Long) {
      vmin <= value <= vmax
    }
  }

  /** The keys and the values of a range are substituted independently of each other. */
  datatype Side = Keys | Values

  /** One side of a range: the texts, their templates, the needReplace flag and the bounds. */
  datatype Column = Column(text: seq<string>, orig: seq<string>, on: bool, vmin: Long, vmax: Long)

  function ColumnOf(r: Range, side: Side): Column {
    match side
    case Keys => Column(seq(|r.tags|, i requires 0 <= i < |r.tags| => r.tags[i].key),
                        seq(|r.tags|, i requires 0 <= i < |r.tags| => r.tags[i].origKey),
                        r.needReplaceKey, r.vmin, r.vmax)
    case Values => Column(seq(|r.tags|, i requires 0 <= i < |r.tags| => r.tags[i].value),
                          seq(|r.tags|, i requires 0 <= i < |r.tags| => r.tags[i].origValue),
                          r.needReplaceVal, r.vmin, r.vmax)
  }

  /** A template with the placeholders substituted. */
  function Shown(orig: string, value: Long, vmin: Long, vmax: Long): string {
    Render(orig, ToDecimal(value), ToDecimal(vmin), ToDecimal(vmax))
  }

  /** %v is the value, %min the lower bound and %max the upper bound; everything else is copied. */
  lemma ShownAt(a: string, b: string, value: Long, vmin: Long, vmax: Long)
    requires '%' !in a
    ensures Shown(a + ("%v" + b), value, vmin, vmax) == a + (ToDecimal(value) + Shown(b, value, vmin, vmax))
    ensures Shown(a + ("%min" + b), value, vmin, vmax) == a + (ToDecimal(vmin) + Shown(b, value, vmin, vmax))
    ensures Shown(a + ("%max" + b), value, vmin, vmax) == a + (ToDecimal(vmax) + Shown(b, value, vmin, vmax))
    ensures Shown(a, value, vmin, vmax) == a
  {
    var v, lo, hi := ToDecimal(value), ToDecimal(vmin), ToDecimal(vmax);
    RenderText(a, "%v" + b, v, lo, hi);
    RenderText(a, "%min" + b, v, lo, hi);
    RenderText(a, "%max" + b, v, lo, hi);
    RenderPlaceholder(b, v, lo, hi);
    RenderText(a, "", v, lo, hi);
    assert a + "" == a;
  }

  /** The index of the first template without a placeholder. */
  function FirstPlain(orig: seq<string>): (p: nat)
    ensures p <= |orig| && (p < |orig| ==> !HasPlaceholder(orig[p]))
    ensures forall i | 0 <= i < p :: HasPlaceholder(orig[i])
  {
    if orig == [] || !HasPlaceholder(orig[0]) then 0 else 1 + FirstPlain(orig[1..])
  }

  /** What updateText(value) makes of one side: the first plain template ends the substitution, for good. */
  function Refresh(c: Column, value: Long): Column
    requires |c.text| == |c.orig|
  {
    if !c.on then c
    else
      var p := FirstPlain(c.orig);
      c.(text := seq(|c.text|, i requires 0 <= i < |c.text| =>
                       if i <= p then Shown(c.orig[i], value, c.vmin, c.vmax) else c.text[i]),
         on := p == |c.orig|)
  }

  function RefreshTag(r: Range, value: Long, p: nat, q: nat, i: nat): Tag
    requires i < |r.tags|
  {
    var t := r.tags[i];
    Tag(if r.needReplaceKey && i <= p then Shown(t.origKey, value, r.vmin, r.vmax) else t.key,
        if r.needReplaceVal && i <= q then Shown(t.origValue, value, r.vmin, r.vmax) else t.value,
        t.origKey, t.origValue)
  }

  /** What updateText(value) makes of a range. */
  function RefreshRange(r: Range, value: Long): Range {
    var p, q := FirstPlain(ColumnOf(r, Keys).orig), FirstPlain(ColumnOf(r, Values).orig);
    Range(r.vmin, r.vmax, seq(|r.tags|, i requires 0 <= i < |r.tags| => RefreshTag(r, value, p, q, i)),
          r.needReplaceKey && p == |r.tags|, r.needReplaceVal && q == |r.tags|)
  }

  lemma RefreshRangeBySide(r: Range, value: Long, side: Side)
    ensures ColumnOf(RefreshRange(r, value), side) == Refresh(ColumnOf(r, side), value)
  {
    var a, b := ColumnOf(RefreshRange(r, value), side), Refresh(ColumnOf(r, side), value);
    assert a.orig == b.orig;
    assert a.text == b.text;
  }

  /** One of the two guarded blocks in the loop of Range::updateText. */
  method UpdateOne(text: string, orig: string, on: bool, value: Long, vmin: Long, vmax: Long)
    returns (text': string, on': bool)
    ensures text' == if on then Shown(orig, value, vmin, vmax) else text
    ensures on' == (on && HasPlaceholder(orig))
  {
    text', on' := text, on;
    if on {
      text' := ReplaceAllInPlace(orig, "%v", ToDecimal(value));
      text' := ReplaceAllInPlace(text', "%min", ToDecimal(vmin));
      text' := ReplaceAllInPlace(text', "%max", ToDecimal(vmax));
      SubstituteIsRender(orig, value, vmin, vmax);
      ShownPlain(orig, value, vmin, vmax);
      if text' == orig {
        on' := false;
      }
    }
  }

  lemma ShownPlain(s: string, value: Long, vmin: Long, vmax: Long)
    ensures Shown(s, value, vmin, vmax) == s <==> !HasPlaceholder(s)
  {
    DecimalIsNumeral(value);
    DecimalIsNumeral(vmin);
    DecimalIsNumeral(vmax);
    RenderChanges(s, ToDecimal(value), ToDecimal(vmin), ToDecimal(vmax));
  }

  /** The body of the loop: both sides of one tag, and what is left of the two flags. */
  method UpdateTag(r: Range, value: Long, i: nat, onKey: bool, onVal: bool, ghost p: nat, ghost q: nat)
    returns (t: Tag, onKey': bool, onVal': bool)
    requires i < |r.tags| && onKey == (r.needReplaceKey && i <= p) && onVal == (r.needReplaceVal && i <= q)
    requires p == FirstPlain(ColumnOf(r, Keys).orig) && q == FirstPlain(ColumnOf(r, Values).orig)
    ensures t == RefreshTag(r, value, p, q, i)
    ensures onKey' == (r.needReplaceKey && i + 1 <= p) && onVal' == (r.needReplaceVal && i + 1 <= q)
  {
    t := r.tags[i];
    assert ColumnOf(r, Keys).orig[i] == t.origKey && ColumnOf(r, Values).orig[i] == t.origValue;
    var key, val;
    key, onKey' := UpdateOne(t.key, t.origKey, onKey, value, r.vmin, r.vmax);
    val, onVal' := UpdateOne(t.value, t.origValue, onVal, value, r.vmin, r.vmax);
    t := t.(key := key, value := val);
  }

  /** Range::updateText. */
  method UpdateText(r: Range, value: Long) returns (r': Range)
    ensures r' == RefreshRange(r, value)
  {
    var tags, onKey, onVal := r.tags, r.needReplaceKey, r.needReplaceVal;
    ghost var p, q := FirstPlain(ColumnOf(r, Keys).orig), FirstPlain(ColumnOf(r, Values).orig);
    var i := 0;
    while i < |r.tags|
      invariant i <= |tags| == |r.tags|
      invariant onKey == (r.needReplaceKey && i <= p) && onVal == (r.needReplaceVal && i <= q)
      invariant forall k | 0 <= k < i :: tags[k] == RefreshTag(r, value, p, q, k)
    {
      var t;
      t, onKey, onVal := UpdateTag(r, value, i, onKey, onVal, p, q);
      tags := tags[i := t];
      i := i + 1;
    }
    r' := Range(r.vmin, r.vmax, tags, onKey, onVal);
  }

  ghost predicate FreshColumn(c: Column) {
    c.on && c.text == c.orig
  }

  function RefreshAll(c: Column, values: seq<Long>): (r: Column)
    requires |c.text| == |c.orig|
    ensures |r.text| == |r.orig| == |c.text|
  {
    if values == [] then c else Refresh(RefreshAll(c, values[..|values| - 1]), values[|values| - 1])
  }

  /** What template `i` of a side shows after a run: with p the first plain template, its first value before
      p and the raw template from p on; without one its last value. */
  function ShownAfter(orig: seq<string>, i: nat, values: seq<Long>, vmin: Long, vmax: Long): string
    requires i < |orig| && values != []
  {
    var p := FirstPlain(orig);
    if p == |orig| then Shown(orig[i], values[|values| - 1], vmin, vmax)
    else if i < p then Shown(orig[i], values[0], vmin, vmax)
    else orig[i]
  }

  /** What a side shows after any run of updateText: texts before the first plain template stay at the
      first value of the run, later ones keep their raw template; without one all show the last value. */
  lemma {:induction false} FlagsOverARun(c: Column, values: seq<Long>)
    requires FreshColumn(c) && values != []
    ensures var r, p := RefreshAll(c, values), FirstPlain(c.orig);
            && |r.text| == |c.orig| && r.orig == c.orig && r.vmin == c.vmin && r.vmax == c.vmax
            && r.on == (p == |c.orig|)
            && (forall i | 0 <= i < |c.orig| :: r.text[i] == ShownAfter(c.orig, i, values, c.vmin, c.vmax))
  {
    var init := values[..|values| - 1];
    if init == [] {
      assert RefreshAll(c, init) == c;
      var p := FirstPlain(c.orig);
      if p < |c.orig| {
        ShownPlain(c.orig[p], values[0], c.vmin, c.vmax);
      }
    } else {
      FlagsOverARun(c, init);
    }
  }

  lemma WholePlaceholder(v: string, lo: string, hi: string)
    ensures Render("%v", v, lo, hi) == v && Render("%min", v, lo, hi) == lo
  {
    assert "%v"[2..] == "" && "%min"[4..] == "" && "%min"[1] != "%v"[1];
    assert v + "" == v && lo + "" == lo;
  }

  lemma DocumentedFirstPlain()
    ensures FirstPlain(["%v", "%min", "text"]) == 2
  {
    var orig := ["%v", "%min", "text"];
    NoPercentIsPlain("text");
    assert HasPlaceholder(orig[0]) && HasPlaceholder(orig[1]) && !HasPlaceholder(orig[2]);
    var p := FirstPlain(orig);
    assert p != 0 && p != 1 && p <= 2;
  }

  // ---- The same for the range.

  /** A run of updateText on a range. */
  function RangeRun(r: Range, values: seq<Long>): Range {
    if values == [] then r else RefreshRange(RangeRun(r, values[..|values| - 1]), values[|values| - 1])
  }

  lemma {:induction false} RangeRunBySide(r: Range, values: seq<Long>, side: Side)
    ensures ColumnOf(RangeRun(r, values), side) == RefreshAll(ColumnOf(r, side), values)
  {
    if values != [] {
      var init := values[..|values| - 1];
      RangeRunBySide(r, init, side);
      RefreshRangeBySide(RangeRun(r, init), values[|values| - 1], side);
    }
  }

  /** After any run of updateText on a fresh range every key and every value shows this, each side by its
      own templates; the templates and bounds stay. */
  lemma RangeOverARun(r: Range, values: seq<Long>)
    requires FreshColumn(ColumnOf(r, Keys)) && FreshColumn(ColumnOf(r, Values)) && values != []
    ensures var r', keys, vals := RangeRun(r, values), ColumnOf(r, Keys).orig, ColumnOf(r, Values).orig;
            && r'.vmin == r.vmin && r'.vmax == r.vmax && |r'.tags| == |r.tags|
            && (forall i | 0 <= i < |r.tags| ::
                  r'.tags[i] == Tag(ShownAfter(keys, i, values, r.vmin, r.vmax),
                                    ShownAfter(vals, i, values, r.vmin, r.vmax),
                                    r.tags[i].origKey, r.tags[i].origValue))
  {
    var r', keys, vals := RangeRun(r, values), ColumnOf(r, Keys), ColumnOf(r, Values);
    RangeRunBySide(r, values, Keys);
    RangeRunBySide(r, values, Values);
    FlagsOverARun(keys, values);
    FlagsOverARun(vals, values);
    var keys', vals' := ColumnOf(r', Keys), ColumnOf(r', Values);
    assert |r'.tags| == |keys'.text| == |r.tags|;
    forall i | 0 <= i < |r.tags|
      ensures r'.tags[i] == Tag(ShownAfter(keys.orig, i, values, r.vmin, r.vmax),
                                ShownAfter(vals.orig, i, values, r.vmin, r.vmax),
                                r.tags[i].origKey, r.tags[i].origValue)
    {
      assert keys'.text[i] == r'.tags[i].key && keys'.orig[i] == r'.tags[i].origKey
             && keys.orig[i] == r.tags[i].origKey;
      assert vals'.text[i] == r'.tags[i].value && vals'.orig[i] == r'.tags[i].origValue
             && vals.orig[i] == r.tags[i].origValue;
    }
  }

  function Fixed(key: string, value: string): Tag {
    Tag(key, value, key, value)
  }

  function DocumentedRange(vmin: Long, vmax: Long): Range {
    Range(vmin, vmax, [Fixed("mykey", "%v"), Fixed("key2", "%min"), Fixed("key3", "text")], true, true)
  }

  lemma DocumentedColumns(vmin: Long, vmax: Long)
    ensures var r, keys, vals := DocumentedRange(vmin, vmax), ["mykey", "key2", "key3"], ["%v", "%min", "text"];
            ColumnOf(r, Keys) == Column(keys, keys, true, vmin, vmax)
            && ColumnOf(r, Values) == Column(vals, vals, true, vmin, vmax)
  {
  }

  lemma DocumentedTexts(values: seq<Long>, vmin: Long, vmax: Long)
    requires values != []
    ensures var vals := ["%v", "%min", "text"];
            ShownAfter(vals, 0, values, vmin, vmax) == ToDecimal(values[0])
            && ShownAfter(vals, 1, values, vmin, vmax) == ToDecimal(vmin)
            && ShownAfter(vals, 2, values, vmin, vmax) == "text"
  {
    DocumentedFirstPlain();
    WholePlaceholder(ToDecimal(values[0]), ToDecimal(vmin), ToDecimal(vmax));
  }

  lemma PlainKeys(keys: seq<string>)
    requires keys != [] && '%' !in keys[0]
    ensures FirstPlain(keys) == 0
  {
    NoPercentIsPlain(keys[0]);
  }

  /** The tags of the documented range "mykey=%v key2=%min key3=text" never leave the first state. */
  lemma DocumentedRangeFreezes(values: seq<Long>, vmin: Long, vmax: Long)
    requires values != []
    ensures var tags := RangeRun(DocumentedRange(vmin, vmax), values).tags;
            && |tags| == 3 && tags[0] == Tag("mykey", ToDecimal(values[0]), "mykey", "%v")
            && tags[1] == Tag("key2", ToDecimal(vmin), "key2", "%min") && tags[2] == Fixed("key3", "text")
  {
    DocumentedColumns(vmin, vmax);
    DocumentedTexts(values, vmin, vmax);
    PlainKeys(["mykey", "key2", "key3"]);
    RangeOverARun(DocumentedRange(vmin, vmax), values);
  }

  lemma ShownStarts(b: string, value: Long, vmin: Long, vmax: Long)
    ensures Shown("%min" + b, value, vmin, vmax) == ToDecimal(vmin) + Shown(b, value, vmin, vmax)
    ensures Shown("_" + ("%v" + b), value, vmin, vmax) == "_" + (ToDecimal(value) + Shown(b, value, vmin, vmax))
    ensures Shown("_" + ("%max" + b), value, vmin, vmax) == "_" + (ToDecimal(vmax) + Shown(b, value, vmin, vmax))
    ensures Shown("", value, vmin, vmax) == ""
  {
    RenderPlaceholder(b, ToDecimal(value), ToDecimal(vmin), ToDecimal(vmax));
    ShownAt("_", b, value, vmin, vmax);
  }

  const BOUNDS_AND_VALUE: string := "%min" + ("_" + ("%v" + ("_" + ("%max" + ""))))

  lemma BoundsAndValue(value: Long, vmin: Long, vmax: Long)
    ensures Shown(BOUNDS_AND_VALUE, value, vmin, vmax) ==
              ToDecimal(vmin) + ("_" + (ToDecimal(value) + ("_" + (ToDecimal(vmax) + ""))))
  {
    ShownStarts("", value, vmin, vmax);
    ShownStarts("_" + ("%max" + ""), value, vmin, vmax);
    ShownStarts("_" + ("%v" + ("_" + ("%max" + ""))), value, vmin, vmax);
  }

  lemma BoundsAndValueText()
    ensures BOUNDS_AND_VALUE == "%min_%v_%max" && FirstPlain([BOUNDS_AND_VALUE]) == 1
  {
    var rest := "_" + ("%v" + ("_" + ("%max" + "")));
    assert "%min" <= "%min" + rest;
    assert HasPlaceholder(BOUNDS_AND_VALUE);
  }

  lemma OneTag(tag: Tag, vmin: Long, vmax: Long)
    ensures var r := Range(vmin, vmax, [tag], true, true);
            && ColumnOf(r, Keys) == Column([tag.key], [tag.origKey], true, vmin, vmax)
            && ColumnOf(r, Values) == Column([tag.value], [tag.origValue], true, vmin, vmax)
  {
  }

  /** The other documented range "mykey=%min_%v_%max", after any run: lower bound, last value, upper bound. */
  lemma DocumentedBounds(values: seq<Long>, vmin: Long, vmax: Long)
    requires values != []
    ensures BOUNDS_AND_VALUE == "%min_%v_%max"
    ensures var tags := RangeRun(Range(vmin, vmax, [Fixed("mykey", BOUNDS_AND_VALUE)], true, true), values).tags;
            && |tags| == 1 && tags[0].key == "mykey"
            && tags[0].value ==
                 ToDecimal(vmin) + ("_" + (ToDecimal(values[|values| - 1]) + ("_" + (ToDecimal(vmax) + ""))))
  {
    var tag := Fixed("mykey", BOUNDS_AND_VALUE);
    OneTag(tag, vmin, vmax);
    BoundsAndValueText();
    PlainKeys(["mykey"]);
    BoundsAndValue(values[|values| - 1], vmin, vmax);
    RangeOverARun(Range(vmin, vmax, [tag], true, true), values);
  }
}
