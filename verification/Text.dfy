/** Text helpers of the tag templates: uniset::replace_all, std::to_string(long), and the three
    successive replacements that Range::updateText applies to a template. */
module Text {

  /** std::to_string of an integer. */
  function ToDecimal(n: int): (r: string)
    decreases n < 0, if n < 0 then -n else n
  {
    if n < 0 then "-" + ToDecimal(-n)
    else if n < 10 then ["0123456789"[n]]
    else ToDecimal(n / 10) + ["0123456789"[n % 10]]
  }

  /** A text that replacing can neither extend to nor shorten from a placeholder. */
  ghost predicate Numeral(s: string) {
    s != "" && forall c | c in s :: c in "0123456789-"
  }

  lemma {:induction false} DecimalIsNumeral(n: int)
    ensures Numeral(ToDecimal(n))
    decreases n < 0, if n < 0 then -n else n
  {
    if n < 0 {
      DecimalIsNumeral(-n);
    } else if n < 10 {
      NumeralAppend("", n);
    } else {
      DecimalIsNumeral(n / 10);
      NumeralAppend(ToDecimal(n / 10), n % 10);
    }
  }

  lemma NumeralAppend(s: string, k: nat)
    requires k < 10 && (s == "" || Numeral(s))
    ensures Numeral(s + ["0123456789"[k]])
  {
    assert "0123456789-"[k] == "0123456789"[k];
  }

  lemma {:induction false} DigitsFirst(n: nat)
    ensures ToDecimal(n) != "" && ToDecimal(n)[0] != '-'
  {
    if n >= 10 {
      DigitsFirst(n / 10);
    }
  }

  lemma LastDigit(n: nat)
    ensures var s := ToDecimal(n); s != "" && s[|s| - 1] as int == '0' as int + n % 10
    ensures ToDecimal(n)[..|ToDecimal(n)| - 1] == if n < 10 then "" else ToDecimal(n / 10)
  {
    assert "0123456789"[n % 10] as int == '0' as int + n % 10;
  }

  lemma {:induction false} DigitsInjective(m: nat, n: nat)
    requires ToDecimal(m) == ToDecimal(n)
    ensures m == n
  {
    LastDigit(m);
    LastDigit(n);
    DigitsFirst(m / 10);
    DigitsFirst(n / 10);
    if m >= 10 && n >= 10 {
      DigitsInjective(m / 10, n / 10);
    }
  }

  lemma MinusFirst(n: int)
    requires n < 0
    ensures ToDecimal(n) != "" && ToDecimal(n)[0] == '-' && ToDecimal(n)[1..] == ToDecimal(-n)
  {
  }

  /** Different numbers have different texts. */
  lemma DecimalInjective(m: int, n: int)
    requires ToDecimal(m) == ToDecimal(n)
    ensures m == n
  {
    if m < 0 {
      MinusFirst(m);
    } else {
      DigitsFirst(m);
    }
    if n < 0 {
      MinusFirst(n);
    } else {
      DigitsFirst(n);
    }
    if m < 0 {
      DigitsInjective(-m, -n);
    } else {
      DigitsInjective(m, n);
    }
  }

  /** All occurrences of `from`, found from left to right and without overlaps, become `to`. */
  function ReplaceAll(src: string, from: string, to: string): string {
    if from == "" || src == "" then src
    else if from <= src then to + ReplaceAll(src[|from|..], from, to)
    else [src[0]] + ReplaceAll(src[1..], from, to)
  }

  predicate Contains(s: string, p: string) {
    p <= s || (s != "" && Contains(s[1..], p))
  }

  lemma {:induction false} ReplaceAllAbsent(src: string, from: string, to: string)
    requires !Contains(src, from)
    ensures ReplaceAll(src, from, to) == src
  {
    if src != "" {
      ReplaceAllAbsent(src[1..], from, to);
    }
  }

  lemma {:induction false} ContainsAt(s: string, p: string, k: nat)
    requires k <= |s| && Contains(s[k..], p)
    ensures Contains(s, p)
  {
    if k > 0 {
      assert s[1..][k - 1..] == s[k..];
      ContainsAt(s[1..], p, k - 1);
    } else {
      assert s[0..] == s;
    }
  }

  /** The first occurrence of `p` in `s` is at `k`. */
  ghost predicate FirstAt(s: string, p: string, k: int) {
    0 <= k && k + |p| <= |s| && p <= s[k..] && forall j | 0 <= j < k :: !(p <= s[j..])
  }

  /** std::string::find: the first occurrence at or after `pos`, if there is one. */
  method Find(s: string, p: string, pos: nat, ghost tail: string) returns (found: bool, at: nat)
    requires pos <= |s| && tail == s[pos..]
    ensures found ==> pos <= at && FirstAt(tail, p, at - pos)
    ensures !found ==> !Contains(tail, p)
  {
    at := pos;
    while at <= |s|
      invariant pos <= at <= |s| + 1
      invariant forall k | 0 <= k < at - pos :: !(p <= tail[k..])
    {
      assert tail[at - pos..] == s[at..];
      if p <= s[at..] {
        return true, at;
      }
      at := at + 1;
    }
    NowhereIsAbsent(tail, p, 0);
    return false, at;
  }

  lemma {:induction false} NowhereIsAbsent(s: string, p: string, pos: nat)
    requires pos <= |s|
    requires forall k | pos <= k <= |s| :: !(p <= s[k..])
    ensures !Contains(s[pos..], p)
    decreases |s| - pos
  {
    if pos < |s| {
      assert s[pos..][1..] == s[pos + 1..];
      NowhereIsAbsent(s, p, pos + 1);
    }
  }

  /** Text before the first occurrence is copied. */
  lemma {:induction false} ReplaceAllSkips(src: string, from: string, to: string, k: nat)
    requires from != "" && k <= |src|
    requires forall j | 0 <= j < k :: !(from <= src[j..])
    ensures ReplaceAll(src, from, to) == src[..k] + ReplaceAll(src[k..], from, to)
  {
    assert src[0..] == src;
    if k > 0 {
      forall j | 0 <= j < k - 1 ensures !(from <= src[1..][j..]) {
        assert src[1..][j..] == src[j + 1..];
      }
      ReplaceAllSkips(src[1..], from, to, k - 1);
      assert src[1..][k - 1..] == src[k..];
      assert src[..k] == [src[0]] + src[1..][..k - 1];
    }
  }

  lemma ReplaceFirst(src: string, from: string, to: string, k: nat)
    requires from != "" && FirstAt(src, from, k)
    ensures ReplaceAll(src, from, to) == src[..k] + (to + ReplaceAll(src[k + |from|..], from, to))
  {
    ReplaceAllSkips(src, from, to, k);
    assert src[k..][|from|..] == src[k + |from|..];
  }

  /** One turn of the loop below: the finished part grows by the text up to and with one replacement. */
  lemma ReplaceStep(whole: string, res: string, done: string, rest: string, from: string, to: string, pos: nat)
    returns (done': string, rest': string)
    requires from != "" && res == done + rest && |done| <= pos && FirstAt(rest, from, pos - |done|)
    requires whole == done + ReplaceAll(rest, from, to)
    ensures pos + |from| <= |res| && res[..pos] + to + res[pos + |from|..] == done' + rest'
    ensures |done'| == pos + |to| && |rest'| < |rest| && (done' + rest')[|done'|..] == rest'
    ensures whole == done' + ReplaceAll(rest', from, to)
  {
    var k := pos - |done|;
    done', rest' := done + rest[..k] + to, rest[k + |from|..];
    assert whole == done' + ReplaceAll(rest', from, to) by {
      ReplaceFirst(rest, from, to, k);
      Regroup(done, rest[..k], to, ReplaceAll(rest', from, to));
    }
    CutAt(done, rest, k, |from|);
    BehindDone(done', rest');
  }

  lemma BehindDone(done: string, rest: string)
    ensures (done + rest)[|done|..] == rest
  {
  }

  lemma Regroup(a: string, b: string, c: string, d: string)
    ensures a + (b + (c + d)) == a + b + c + d
  {
  }

  lemma CutAt(done: string, rest: string, k: nat, n: nat)
    requires k + n <= |rest|
    ensures (done + rest)[..|done| + k] == done + rest[..k] && (done + rest)[|done| + k + n..] == rest[k + n..]
  {
  }

  /** uniset::replace_all rewrites the string in place and searches on behind the inserted text. */
  method ReplaceAllInPlace(src: string, from: string, to: string) returns (res: string)
    ensures res == ReplaceAll(src, from, to)
  {
    res := src;
    if from == "" {
      return;
    }
    ghost var done, rest, whole := "", src, ReplaceAll(src, from, to);
    assert res[0..] == src;
    var found, pos := Find(res, from, 0, src);
    while found
      invariant res == done + rest && whole == done + ReplaceAll(rest, from, to)
      invariant found ==> |done| <= pos && FirstAt(rest, from, pos - |done|)
      invariant !found ==> !Contains(rest, from)
      decreases |rest|, found
    {
      done, rest := ReplaceStep(whole, res, done, rest, from, to, pos);
      res := res[..pos] + to + res[pos + |from|..];
      pos := pos + |to|;
      found, pos := Find(res, from, pos, rest);
    }
    ReplaceAllAbsent(rest, from, to);
  }

  /** What one placeholder substitution does to a template. */
  function Substitute(orig: string, value: int, vmin: int, vmax: int): string {
    Passes(orig, ToDecimal(value), ToDecimal(vmin), ToDecimal(vmax))
  }

  predicate AtPlaceholder(s: string) {
    "%v" <= s || "%min" <= s || "%max" <= s
  }

  /** The first placeholder or character of a template: what it becomes, and how long it is. */
  function Token(s: string, v: string, lo: string, hi: string): (t: (string, nat))
    requires s != ""
    ensures 0 < t.1 <= |s|
  {
    if "%v" <= s then (v, 2)
    else if "%min" <= s then (lo, 4)
    else if "%max" <= s then (hi, 4)
    else ([s[0]], 1)
  }

  /** The meaning of a template: every placeholder read once, from left to right. */
  function Render(s: string, v: string, lo: string, hi: string): string {
    if s == "" then ""
    else var (text, n) := Token(s, v, lo, hi); text + Render(s[n..], v, lo, hi)
  }

  /** Text before the first '%' is copied ... */
  lemma {:induction false} RenderText(a: string, b: string, v: string, lo: string, hi: string)
    requires '%' !in a
    ensures Render(a + b, v, lo, hi) == a + Render(b, v, lo, hi)
  {
    if a == "" {
      assert a + b == b;
    } else {
      assert (a + b)[0] == a[0] && (a + b)[1..] == a[1..] + b;
      RenderText(a[1..], b, v, lo, hi);
    }
  }

  /** ... and each placeholder is read as its own text. */
  lemma RenderPlaceholder(b: string, v: string, lo: string, hi: string)
    ensures Render("%v" + b, v, lo, hi) == v + Render(b, v, lo, hi)
    ensures Render("%min" + b, v, lo, hi) == lo + Render(b, v, lo, hi)
    ensures Render("%max" + b, v, lo, hi) == hi + Render(b, v, lo, hi)
  {
    assert ("%v" + b)[2..] == b && ("%min" + b)[4..] == b && ("%max" + b)[4..] == b;
    assert ("%min" + b)[1] == 'm' && ("%max" + b)[1] == 'm' && ("%max" + b)[2] == 'a';
  }

  predicate UsesValue(s: string) {
    Contains(s, "%v")
  }

  predicate HasPlaceholder(s: string) {
    Contains(s, "%v") || Contains(s, "%min") || Contains(s, "%max")
  }

  /** Inserted numerals and literal text before the next '%' pass through a replacement. */
  lemma {:induction false} ReplaceAllPasses(a: string, b: string, from: string, to: string)
    requires from != "" && from[0] == '%' && '%' !in a
    ensures ReplaceAll(a + b, from, to) == a + ReplaceAll(b, from, to)
  {
    if a == "" {
      assert a + b == b;
    } else {
      assert (a + b)[0] == a[0] && (a + b)[1..] == a[1..] + b;
      ReplaceAllPasses(a[1..], b, from, to);
    }
  }

  lemma ReplacedHead(s: string, from: string, to: string)
    requires from != "" && from <= s && Numeral(to)
    ensures ReplaceAll(s, from, to) != "" && ReplaceAll(s, from, to)[0] in "0123456789-"
  {
    assert to[0] in to;
    assert ReplaceAll(s, from, to)[0] == to[0];
  }

  /** A replacement by numerals never completes a placeholder that was not there. */
  lemma {:induction false} ReplaceAllKeepsPrefix(s: string, from: string, to: string, p: string)
    requires from != "" && Numeral(to)
    requires forall c | c in p :: c !in "0123456789-"
    requires p <= ReplaceAll(s, from, to)
    ensures p <= s
  {
    if p != "" && s != "" {
      if from <= s {
        ReplacedHead(s, from, to);
      } else {
        assert p[1..] <= ReplaceAll(s[1..], from, to);
        ReplaceAllKeepsPrefix(s[1..], from, to, p[1..]);
        assert s == [s[0]] + s[1..] && p == [p[0]] + p[1..];
      }
    }
  }

  lemma {:induction false} NoPercentIsPlain(s: string)
    requires '%' !in s
    ensures !HasPlaceholder(s)
  {
    if s != "" {
      NoPercentIsPlain(s[1..]);
      assert s[0] in s;
    }
  }

  /** The three successive replacements mean the single left-to-right reading, whatever the template. */
  lemma SubstituteIsRender(s: string, value: int, vmin: int, vmax: int)
    ensures Substitute(s, value, vmin, vmax) == Render(s, ToDecimal(value), ToDecimal(vmin), ToDecimal(vmax))
  {
    DecimalIsNumeral(value);
    DecimalIsNumeral(vmin);
    DecimalIsNumeral(vmax);
    PassesAreRender(s, ToDecimal(value), ToDecimal(vmin), ToDecimal(vmax));
  }

  /** A placeholder passes through the replacement of another one. */
  lemma KeywordPasses(k: string, b: string, from: string, to: string)
    requires k in ["%min", "%max"] && from in ["%v", "%min", "%max"] && k != from
    ensures ReplaceAll(k + b, from, to) == k + ReplaceAll(b, from, to)
  {
    assert (k + b)[1] == k[1] && (k + b)[2] == k[2];
    assert (k + b)[1..] == k[1..] + b;
    ReplaceAllPasses(k[1..], b, from, to);
  }

  function Passes(s: string, v: string, lo: string, hi: string): string {
    ReplaceAll(ReplaceAll(ReplaceAll(s, "%v", v), "%min", lo), "%max", hi)
  }

  lemma PassesAtValue(s: string, v: string, lo: string, hi: string)
    requires Numeral(v) && "%v" <= s
    ensures Passes(s, v, lo, hi) == v + Passes(s[2..], v, lo, hi)
  {
    var a := ReplaceAll(s[2..], "%v", v);
    ReplaceAllPasses(v, a, "%min", lo);
    ReplaceAllPasses(v, ReplaceAll(a, "%min", lo), "%max", hi);
  }

  lemma PassesAtMin(s: string, v: string, lo: string, hi: string)
    requires Numeral(lo) && "%min" <= s
    ensures Passes(s, v, lo, hi) == lo + Passes(s[4..], v, lo, hi)
  {
    assert s == "%min" + s[4..];
    KeywordPasses("%min", s[4..], "%v", v);
    var a := ReplaceAll(s[4..], "%v", v);
    assert ("%min" + a)[4..] == a;
    ReplaceAllPasses(lo, ReplaceAll(a, "%min", lo), "%max", hi);
  }

  lemma PassesAtMax(s: string, v: string, lo: string, hi: string)
    requires "%max" <= s
    ensures Passes(s, v, lo, hi) == hi + Passes(s[4..], v, lo, hi)
  {
    assert s == "%max" + s[4..];
    KeywordPasses("%max", s[4..], "%v", v);
    var a := ReplaceAll(s[4..], "%v", v);
    KeywordPasses("%max", a, "%min", lo);
    var b := ReplaceAll(a, "%min", lo);
    assert ("%max" + b)[4..] == b;
  }

  lemma PassesAtText(s: string, v: string, lo: string, hi: string)
    requires Numeral(v) && Numeral(lo) && s != "" && !AtPlaceholder(s)
    ensures Passes(s, v, lo, hi) == [s[0]] + Passes(s[1..], v, lo, hi)
  {
    var a := ReplaceAll(s, "%v", v);
    var b := ReplaceAll(a, "%min", lo);
    if "%min" <= a {
      ReplaceAllKeepsPrefix(s, "%v", v, "%min");
    }
    if "%max" <= b {
      ReplaceAllKeepsPrefix(a, "%min", lo, "%max");
      ReplaceAllKeepsPrefix(s, "%v", v, "%max");
    }
  }

  lemma {:induction false} PassesAreRender(s: string, v: string, lo: string, hi: string)
    requires Numeral(v) && Numeral(lo) && Numeral(hi)
    ensures Passes(s, v, lo, hi) == Render(s, v, lo, hi)
  {
    if s == "" {
    } else if "%v" <= s {
      PassesAreRender(s[2..], v, lo, hi);
      PassesAtValue(s, v, lo, hi);
    } else if "%min" <= s {
      PassesAreRender(s[4..], v, lo, hi);
      PassesAtMin(s, v, lo, hi);
    } else if "%max" <= s {
      PassesAreRender(s[4..], v, lo, hi);
      PassesAtMax(s, v, lo, hi);
    } else {
      PassesAreRender(s[1..], v, lo, hi);
      PassesAtText(s, v, lo, hi);
    }
  }

  /** A placeholder is read as a numeral, which is not the '%' it starts with. */
  lemma PlaceholderHead(s: string, v: string, lo: string, hi: string)
    requires Numeral(v) && Numeral(lo) && Numeral(hi) && AtPlaceholder(s)
    ensures Render(s, v, lo, hi) != "" && Render(s, v, lo, hi)[0] in "0123456789-" && s[0] == '%'
  {
    var text := Token(s, v, lo, hi).0;
    assert text[0] in text;
    assert Render(s, v, lo, hi)[0] == text[0];
  }

  /** Substitution changes a template exactly when it contains a placeholder. */
  lemma {:induction false} RenderChanges(s: string, v: string, lo: string, hi: string)
    requires Numeral(v) && Numeral(lo) && Numeral(hi)
    ensures Render(s, v, lo, hi) == s <==> !HasPlaceholder(s)
  {
    if s == "" {
    } else if AtPlaceholder(s) {
      PlaceholderHead(s, v, lo, hi);
    } else {
      RenderChanges(s[1..], v, lo, hi);
      assert s == [s[0]] + s[1..];
      assert Render(s, v, lo, hi)[1..] == Render(s[1..], v, lo, hi);
    }
  }

  lemma {:induction false} RenderKeepsPrefix(s: string, v: string, lo: string, hi: string, p: string)
    requires Numeral(v) && Numeral(lo) && Numeral(hi)
    requires (forall c | c in p :: c !in "0123456789-") && p <= Render(s, v, lo, hi)
    ensures p <= s
  {
    if p != "" && s != "" {
      if AtPlaceholder(s) {
        PlaceholderHead(s, v, lo, hi);
      } else {
        RenderKeepsPrefix(s[1..], v, lo, hi, p[1..]);
        assert s == [s[0]] + s[1..] && p == [p[0]] + p[1..];
      }
    }
  }

  lemma {:induction false} NumeralHides(a: string, b: string, p: string)
    requires (forall c | c in a :: c in "0123456789-") && p != "" && p[0] == '%'
    ensures Contains(a + b, p) <==> Contains(b, p)
  {
    if a == "" {
      assert a + b == b;
    } else {
      assert (a + b)[0] == a[0] && a[0] in a && (a + b)[1..] == a[1..] + b;
      NumeralHides(a[1..], b, p);
    }
  }

  /** Nothing is left to substitute, and no substitution builds a new placeholder. */
  lemma {:induction false} RenderIsComplete(s: string, v: string, lo: string, hi: string)
    requires Numeral(v) && Numeral(lo) && Numeral(hi)
    ensures !HasPlaceholder(Render(s, v, lo, hi))
  {
    if s != "" {
      var (text, n) := Token(s, v, lo, hi);
      var rest := Render(s[n..], v, lo, hi);
      RenderIsComplete(s[n..], v, lo, hi);
      if AtPlaceholder(s) {
        NumeralHidesAll(text, rest);
      } else {
        assert (text + rest)[1..] == rest;
        RenderKeepsStart(s, v, lo, hi);
      }
    }
  }

  lemma RenderKeepsStart(s: string, v: string, lo: string, hi: string)
    requires Numeral(v) && Numeral(lo) && Numeral(hi)
    ensures AtPlaceholder(Render(s, v, lo, hi)) ==> AtPlaceholder(s)
  {
    var r := Render(s, v, lo, hi);
    if "%v" <= r {
      RenderKeepsPrefix(s, v, lo, hi, "%v");
    } else if "%min" <= r {
      RenderKeepsPrefix(s, v, lo, hi, "%min");
    } else if "%max" <= r {
      RenderKeepsPrefix(s, v, lo, hi, "%max");
    }
  }

  lemma NumeralHidesAll(a: string, b: string)
    requires Numeral(a)
    ensures HasPlaceholder(a + b) <==> HasPlaceholder(b)
  {
    NumeralHides(a, b, "%v");
    NumeralHides(a, b, "%min");
    NumeralHides(a, b, "%max");
  }

  /** Without %v the rendered text is the same for every value. */
  lemma {:induction false} RenderIgnoresValue(s: string, v: string, w: string, lo: string, hi: string)
    requires !UsesValue(s)
    ensures Render(s, v, lo, hi) == Render(s, w, lo, hi)
  {
    if s == "" {
    } else if "%min" <= s || "%max" <= s {
      SkipKeyword(s);
      RenderIgnoresValue(s[4..], v, w, lo, hi);
    } else {
      RenderIgnoresValue(s[1..], v, w, lo, hi);
    }
  }

  lemma SkipKeyword(s: string)
    requires "%min" <= s || "%max" <= s
    ensures UsesValue(s) <==> UsesValue(s[4..])
  {
    assert s[1] != '%' && s[2] != '%' && s[3] != '%';
    assert s[1..][1..] == s[2..] && s[2..][1..] == s[3..] && s[3..][1..] == s[4..];
    assert Contains(s[3..], "%v") == Contains(s[4..], "%v");
    assert Contains(s[2..], "%v") == Contains(s[3..], "%v");
    assert Contains(s[1..], "%v") == Contains(s[2..], "%v");
  }

  /** With %v it tells values of one length apart ... */
  lemma {:induction false} RenderInjective(s: string, v: string, w: string, lo: string, hi: string)
    requires |v| == |w| && UsesValue(s) && Render(s, v, lo, hi) == Render(s, w, lo, hi)
    ensures v == w
  {
    if "%v" <= s {
      assert v == Render(s, v, lo, hi)[..|v|] && w == Render(s, w, lo, hi)[..|v|];
    } else {
      var (text, n) := Token(s, v, lo, hi);
      if AtPlaceholder(s) {
        SkipKeyword(s);
      }
      assert Render(s[n..], v, lo, hi) == Render(s, v, lo, hi)[|text|..];
      assert Render(s[n..], w, lo, hi) == Render(s, w, lo, hi)[|text|..];
      RenderInjective(s[n..], v, w, lo, hi);
    }
  }

  /** ... and values of different length. */
  lemma {:induction false} RenderGrows(s: string, v: string, w: string, lo: string, hi: string)
    requires |v| < |w|
    ensures |Render(s, v, lo, hi)| <= |Render(s, w, lo, hi)|
    ensures UsesValue(s) ==> |Render(s, v, lo, hi)| < |Render(s, w, lo, hi)|
  {
    if s == "" {
    } else if "%v" <= s {
      RenderGrows(s[2..], v, w, lo, hi);
    } else if "%min" <= s || "%max" <= s {
      SkipKeyword(s);
      RenderGrows(s[4..], v, w, lo, hi);
    } else {
      RenderGrows(s[1..], v, w, lo, hi);
    }
  }
}
