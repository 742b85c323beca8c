/** The text of a line of the InfluxDB line protocol, read back: fields, value and time stamp. */
module OpenTSDBLines {
  import opened Sequences
  import opened Text
  import opened OpenTSDB

  /** Cutting a text at a separator. */
  function Fields(s: string, sep: char): (f: seq<string>)
    ensures f != []
  {
    if s == "" then [""]
    else
      var rest := Fields(s[1..], sep);
      if s[0] == sep then [""] + rest else [[s[0]] + rest[0]] + rest[1..]
  }

  lemma {:induction false} LastField(a: string, sep: char)
    requires sep !in a
    ensures Fields(a, sep) == [a]
  {
    if a != "" {
      LastField(a[1..], sep);
      assert a == [a[0]] + a[1..];
    }
  }

  lemma {:induction false} OneField(a: string, b: string, sep: char)
    requires sep !in a
    ensures Fields(a + ([sep] + b), sep) == [a] + Fields(b, sep)
  {
    var s := a + ([sep] + b);
    if a == "" {
      assert s[0] == sep && s[1..] == b;
    } else {
      OneField(a[1..], b, sep);
      assert s[0] == a[0] && s[1..] == a[1..] + ([sep] + b);
      assert a == [a[0]] + a[1..];
      var rest := [a[1..]] + Fields(b, sep);
      assert rest[1..] == Fields(b, sep);
    }
  }

  /** Names and tags without a space and without a newline. */
  predicate PlainParts(c: Parts) {
    && CleanParts(c) && ' ' !in c.measurement && ' ' !in c.project && ' ' !in c.tags && ' ' !in c.name
    && ' ' !in c.ownTags
  }

  lemma PositiveReads(n: nat)
    ensures SignedNumber(ToDecimal(n)) == n
  {
    var s := ToDecimal(n);
    DigitsFirst(n);
    SignedAs(s);
    NumberOfDecimal(n);
  }

  lemma NegativeReads(n: int)
    requires n < 0
    ensures SignedNumber(ToDecimal(n)) == n
  {
    var s := ToDecimal(n);
    MinusFirst(n);
    SignedAs(s);
    NumberOfDecimal(-n);
  }

  lemma DecimalReads(n: int)
    ensures SignedNumber(ToDecimal(n)) == n
  {
    if n < 0 {
      NegativeReads(n);
    } else {
      PositiveReads(n);
    }
  }

  lemma NoSpace(n: int)
    ensures ' ' !in ToDecimal(n)
  {
    DecimalIsNumeral(n);
  }

  lemma NoSpaceInStamp(sec: int, nsec: nat)
    ensures ' ' !in TimeStamp(sec, nsec)
  {
    NoSpace(sec);
    NoSpace(nsec / 1000000);
  }

  /** Measurement, project, sensor name, common tags and own tags, in this order, as far as they are given. */
  function SeriesOf(c: Parts): string {
    c.measurement + (if c.project != "" then ",project=" + c.project else "")
    + ",sensor=" + c.name
    + (if c.tags != "" then "," + c.tags else "") + (if c.ownTags != "" then "," + c.ownTags else "")
  }

  lemma NoSpaceInSeries(c: Parts)
    requires PlainParts(c)
    ensures ' ' !in SeriesOf(c)
  {
  }

  /** The line reads as: series, "value=" with the value, and the moment in milliseconds. */
  ghost predicate ReadsAs(line: string, c: Parts, value: int, sec: int, nsec: nat) {
    && OneLine(line)
    && var f := Fields(line[..|line| - 1], ' ');
       && |f| == 3
       && f[0] == c.measurement + (if c.project != "" then ",project=" + c.project else "")
                  + ",sensor=" + c.name
                  + (if c.tags != "" then "," + c.tags else "") + (if c.ownTags != "" then "," + c.ownTags else "")
       && |f[1]| > 6 && f[1][..6] == "value=" && SignedNumber(f[1][6..]) == value
       && (SignedNumber(f[2]) == sec * 1000 + nsec / 1000000 <==> sec >= 0 || nsec / 1000000 == 0)
  }

  lemma LineText(c: Parts, value: int, sec: int, nsec: nat)
    ensures Body(c, value, sec, nsec) ==
              SeriesOf(c) + ([' '] + (("value=" + ToDecimal(value)) + ([' '] + TimeStamp(sec, nsec))))
  {
    var a, v, t := SeriesOf(c), ToDecimal(value), TimeStamp(sec, nsec);
    assert Body(c, value, sec, nsec) == a + " value=" + v + " " + t;
    assert " value=" == [' '] + "value=";
    Reassociate(a, v, t);
  }

  lemma Reassociate(a: string, v: string, t: string)
    ensures a + ([' '] + "value=") + v + [' '] + t == a + ([' '] + (("value=" + v) + ([' '] + t)))
  {
  }

  lemma LineFields(c: Parts, value: int, sec: int, nsec: nat)
    requires PlainParts(c)
    ensures Fields(Body(c, value, sec, nsec), ' ') == [SeriesOf(c), "value=" + ToDecimal(value), TimeStamp(sec, nsec)]
  {
    var a, b, t := SeriesOf(c), "value=" + ToDecimal(value), TimeStamp(sec, nsec);
    NoSpaceInSeries(c);
    NoSpace(value);
    NoSpaceInStamp(sec, nsec);
    LineText(c, value, sec, nsec);
    OneField(a, b + ([' '] + t), ' ');
    OneField(b, t, ' ');
    LastField(t, ' ');
  }

  /** The line that sensorInfo makes is read back. */
  lemma LineReads(c: Parts, value: int, sec: int, nsec: nat)
    requires PlainParts(c) && nsec < 1000000000
    ensures ReadsAs(Line(c, value, sec, nsec), c, value, sec, nsec)
  {
    var line, body := Line(c, value, sec, nsec), Body(c, value, sec, nsec);
    LineIsOneLine(c, value, sec, nsec);
    assert line[..|line| - 1] == body;
    LineFields(c, value, sec, nsec);
    DecimalReads(value);
    DecimalIsNumeral(value);
    assert ("value=" + ToDecimal(value))[6..] == ToDecimal(value);
    TimeStampReads(sec, nsec);
  }

  // ---- The messages at the other end.

  datatype Reading = Reading(id: ObjectId, value: int, sec: int, nsec: nat)

  /** The offered lines are those of these messages. */
  ghost predicate OfferedAs(parts: map<ObjectId, Parts>, ms: seq<Reading>, lines: seq<string>) {
    && |ms| == |lines|
    && forall i | 0 <= i < |ms| ::
         && ms[i].id in parts && ms[i].nsec < 1000000000
         && lines[i] == Line(parts[ms[i].id], ms[i].value, ms[i].sec, ms[i].nsec)
  }

  lemma {:induction false} OfferedAll(events: seq<Event>)
    ensures forall n | 0 <= n < |events| && events[n].Message? :: events[n].line in Offered(events)
  {
    if events != [] {
      var n := |events| - 1;
      OfferedAll(events[..n]);
      forall m | 0 <= m < |events| && events[m].Message? ensures events[m].line in Offered(events) {
        if m < n {
          assert events[..n][m] == events[m];
          OfferedGrows(events, events[m].line);
        } else {
          assert Offered(events)[|Offered(events)| - 1] == events[n].line;
        }
      }
    }
  }

  lemma OfferedGrows(events: seq<Event>, line: string)
    requires events != [] && line in Offered(events[..|events| - 1])
    ensures line in Offered(events)
  {
  }

  lemma OfferedAreLines(parts: map<ObjectId, Parts>, ms: seq<Reading>, events: seq<Event>)
    requires OfferedAs(parts, ms, Offered(events)) && forall id | id in parts :: PlainParts(parts[id])
    ensures LinesOnly(events)
  {
    OfferedAll(events);
    forall n | 0 <= n < |events| && events[n].Message? ensures OneLine(events[n].line) {
      var i :| 0 <= i < |Offered(events)| && Offered(events)[i] == events[n].line;
      LineIsOneLine(parts[ms[i].id], ms[i].value, ms[i].sec, ms[i].nsec);
    }
  }

  /** The i-th line is read as message at[i]. */
  ghost predicate AllRead(parts: map<ObjectId, Parts>, ms: seq<Reading>, lines: seq<string>, at: seq<nat>) {
    && |at| == |lines| && (forall i, j | 0 <= i < j < |at| :: at[i] < at[j])
    && (forall i | 0 <= i < |at| ::
          at[i] < |ms| && ms[at[i]].id in parts
          && ReadsAs(lines[i], parts[ms[at[i]].id], ms[at[i]].value, ms[at[i]].sec, ms[at[i]].nsec))
  }

  /** End to end, over every run with all-or-nothing sends: what the peer cuts out of the bytes it received,
      followed by what is still buffered, are lines that read as messages in the order of their arrival, each
      with its series, its value and its moment. */
  lemma PeerReadsMessages(p: Params, parts: map<ObjectId, Parts>, events: seq<Event>, ms: seq<Reading>)
    returns (at: seq<nat>)
    requires GoodRun(p, events) && OfferedAs(parts, ms, Offered(events))
    requires forall id | id in parts :: PlainParts(parts[id])
    ensures var s := Run(p, events);
            s.accepted == SplitLines(s.wire) + s.buf && AllRead(parts, ms, SplitLines(s.wire) + s.buf, at)
  {
    var s := Run(p, events);
    OfferedAreLines(parts, ms, events);
    PeerReadsAcceptedLines(p, events);
    AcceptedInEveryRun(p, events);
    at :| Embeds(at, s.accepted, Offered(events));
    forall i | 0 <= i < |at|
      ensures ms[at[i]].id in parts
              && ReadsAs(s.accepted[i], parts[ms[at[i]].id], ms[at[i]].value, ms[at[i]].sec, ms[at[i]].nsec)
    {
      LineReads(parts[ms[at[i]].id], ms[at[i]].value, ms[at[i]].sec, ms[at[i]].nsec);
    }
  }
}
