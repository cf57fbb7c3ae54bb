/**
 * The development StatsD server of statsd_server.py. `parse_metric` reads one line of the
 * StatsD / DogStatsD format `name:value|type|@rate|#key:value,...` and `process_metric`
 * folds a parsed metric into the server's counter, gauge and timer tables. Numbers are
 * `real`s, and Python's `float(text)` is a parameter: the model holds for any parser.
 */
module StatsD {
  import opened Wrappers
  import opened Text
  import opened PyValue

  /** A parsed metric: the `name`, `value`, `type`, `sample_rate` and `tags` of the dict
      `parse_metric` returns. */
  datatype Metric = Metric(name: string, value: real, metricType: string, sampleRate: real, tags: map<string, string>)

  /** Python's `float(text)`: the number a text denotes, or `None` where `float` raises. */
  type FloatParser = string -> Option<real>

  /** The sample rate once the fields after the type have been read, left to right: it
      starts at 1.0, each field starting with `@` sets it to the number after the `@`, and a
      `@` field that is not a number fails the line. */
  function RateAfter(fields: seq<string>, parse: FloatParser): Option<real>
    decreases |fields|
  {
    if fields == [] then Some(1.0)
    else
      var last := fields[|fields| - 1];
      var before := RateAfter(fields[..|fields| - 1], parse);
      if before.None? then None
      else if StartsWith(last, "@") then parse(last[1..])
      else before
  }

  /** The tags once the `key:value` pieces of a tag field have been read, left to right: a
      piece with a `:` maps the text before its first `:` to the rest; a piece without one
      is dropped. */
  function AddTags(tags: map<string, string>, pieces: seq<string>): map<string, string>
    decreases |pieces|
  {
    if pieces == [] then tags
    else
      var last := pieces[|pieces| - 1];
      var before := AddTags(tags, pieces[..|pieces| - 1]);
      if ':' in last then before[SplitOnce(last, ':').0 := SplitOnce(last, ':').1] else before
  }

  /** A field that carries tags: one starting with `#` (a field starting with `@` is a rate). */
  predicate IsTagField(field: string)
  {
    !StartsWith(field, "@") && StartsWith(field, "#")
  }

  /** The tags of the fields after the type: every tag field's text after the `#`, cut at
      `,`, read left to right. Other fields carry no tags. */
  function TagsAfter(fields: seq<string>): map<string, string>
    decreases |fields|
  {
    if fields == [] then map[]
    else
      var last := fields[|fields| - 1];
      var before := TagsAfter(fields[..|fields| - 1]);
      if IsTagField(last) then AddTags(before, Split(last[1..], ',')) else before
  }

  /** The specification of `parse_metric` (implemented by `StatsDServer.ParseMetric`): what
      it returns for a line: `None` for fewer than two `|`-fields, a first
      field without `:`, or a number that does not parse; otherwise the name before the first
      `:`, the value after it, the second field as type, and the rate and tags of the rest. */
  function Parse(data: string, parse: FloatParser): (r: Option<Metric>)
    ensures |Split(data, '|')| < 2 ==> r.None?
    ensures r.Some? ==> ':' !in r.value.name && '|' !in r.value.name && '|' !in r.value.metricType
  {
    var parts := Split(data, '|');
    if |parts| < 2 then None
    else
      var rate := RateAfter(parts[2..], parse);
      if rate.None? || ':' !in parts[0] then None
      else
        var (name, text) := SplitOnce(parts[0], ':');
        assert '|' !in name by {
          assert parts[0] == name + [':'] + text;
          forall i | 0 <= i < |name| ensures name[i] != '|' {
            assert name[i] == parts[0][i];
          }
        }
        match parse(text)
        case None => None
        case Some(v) => Some(Metric(name, v, parts[1], rate.value, TagsAfter(parts[2..])))
  }

  /** The line a client sends: the fields joined by `|`. */
  function Line(name: string, valueText: string, metricType: string, extras: seq<string>): string
  {
    Join([name + ":" + valueText, metricType] + extras, "|")
  }

  /** Fields joined by `c` split back into the same fields. */
  lemma {:induction false} SplitJoin(pieces: seq<string>, c: char)
    requires |pieces| >= 1
    requires forall i :: 0 <= i < |pieces| ==> c !in pieces[i]
    ensures Split(Join(pieces, [c]), c) == pieces
    decreases |pieces|
  {
    if |pieces| > 1 {
      var rest := Join(pieces[1..], [c]);
      assert Join(pieces, [c]) == pieces[0] + [c] + rest;
      SplitOnceAt(pieces[0], c, rest);
      SplitStep(Join(pieces, [c]), c);
      SplitJoin(pieces[1..], c);
      assert pieces == [pieces[0]] + pieces[1..];
    }
  }

  /** The fields of a well-formed line are the ones it was joined from. */
  lemma LineFields(name: string, valueText: string, metricType: string, extras: seq<string>)
    requires '|' !in name && '|' !in valueText && '|' !in metricType
    requires forall i :: 0 <= i < |extras| ==> '|' !in extras[i]
    ensures Split(Line(name, valueText, metricType, extras), '|') == [name + ":" + valueText, metricType] + extras
  {
    var pieces := [name + ":" + valueText, metricType] + extras;
    forall i | 0 <= i < |pieces|
      ensures '|' !in pieces[i]
    {
      if i >= 2 {
        assert pieces[i] == extras[i - 2];
      }
    }
    SplitJoin(pieces, '|');
  }

  /** A well-formed line parses to its parts: the name, the parsed value, the type, and the
      rate and tags of the extra fields; it fails exactly when the value or a rate does not
      parse. */
  lemma ParseLine(name: string, valueText: string, metricType: string, extras: seq<string>, parse: FloatParser)
    requires ':' !in name && '|' !in name && '|' !in valueText && '|' !in metricType
    requires forall i :: 0 <= i < |extras| ==> '|' !in extras[i]
    ensures Parse(Line(name, valueText, metricType, extras), parse) ==
      if parse(valueText).Some? && RateAfter(extras, parse).Some?
      then Some(Metric(name, parse(valueText).value, metricType, RateAfter(extras, parse).value, TagsAfter(extras)))
      else None
  {
    var parts := Split(Line(name, valueText, metricType, extras), '|');
    LineFields(name, valueText, metricType, extras);
    assert parts[0] == name + ":" + valueText && parts[1] == metricType && parts[2..] == extras;
    SplitOnceAt(name, ':', valueText);
    assert ':' in parts[0] && SplitOnce(parts[0], ':') == (name, valueText);
  }

  /** Every line that parses is a well-formed line of the metric's name and type. */
  lemma ParsedLineShape(data: string, parse: FloatParser)
    requires Parse(data, parse).Some?
    ensures var m := Parse(data, parse).value;
      exists valueText, extras ::
        && data == Line(m.name, valueText, m.metricType, extras)
        && ':' !in m.name && '|' !in m.name && '|' !in valueText && '|' !in m.metricType
        && parse(valueText) == Some(m.value)
        && RateAfter(extras, parse) == Some(m.sampleRate) && TagsAfter(extras) == m.tags
  {
    var m := Parse(data, parse).value;
    var parts := Split(data, '|');
    var (name, valueText) := SplitOnce(parts[0], ':');
    var extras := parts[2..];
    JoinSplit(data, '|');
    assert parts == [name + ":" + valueText, m.metricType] + extras;
    assert data == Line(m.name, valueText, m.metricType, extras);
  }

  /** A line with no `|`, or whose first field has no `:`, gives no metric. */
  lemma ParseRejects(data: string, parse: FloatParser)
    ensures '|' !in data ==> Parse(data, parse).None?
    ensures ':' !in Split(data, '|')[0] ==> Parse(data, parse).None?
  {
  }

  /** A rate that fails to parse fails every longer run of fields. */
  lemma {:induction false} RateFailureStays(fields: seq<string>, n: nat, parse: FloatParser)
    requires n <= |fields|
    requires RateAfter(fields[..n], parse).None?
    ensures RateAfter(fields, parse).None?
    decreases |fields| - n
  {
    if n < |fields| {
      assert fields[..n + 1][..n] == fields[..n];
      RateFailureStays(fields, n + 1, parse);
    } else {
      assert fields[..n] == fields;
    }
  }

  /** Without `@` fields the rate is 1.0. */
  lemma {:induction false} RateDefault(fields: seq<string>, parse: FloatParser)
    requires forall i :: 0 <= i < |fields| ==> !StartsWith(fields[i], "@")
    ensures RateAfter(fields, parse) == Some(1.0)
    decreases |fields|
  {
    if fields != [] {
      RateDefault(fields[..|fields| - 1], parse);
    }
  }

  /** A `@` field that is not a number fails the line, wherever it is. */
  lemma RateFailure(fields: seq<string>, i: nat, parse: FloatParser)
    requires i < |fields| && StartsWith(fields[i], "@") && parse(fields[i][1..]).None?
    ensures RateAfter(fields, parse).None?
  {
    assert fields[..i + 1][..i] == fields[..i];
    RateFailureStays(fields, i + 1, parse);
  }

  /** When the line does not fail, the last `@` field wins. */
  lemma {:induction false} RateLastWins(fields: seq<string>, i: nat, parse: FloatParser)
    requires i < |fields| && StartsWith(fields[i], "@")
    requires forall j :: i < j < |fields| ==> !StartsWith(fields[j], "@")
    requires RateAfter(fields, parse).Some?
    ensures RateAfter(fields, parse) == parse(fields[i][1..])
    decreases |fields|
  {
    var init := fields[..|fields| - 1];
    if i < |fields| - 1 {
      assert init[i] == fields[i];
      RateLastWins(init, i, parse);
    }
  }

  /** A piece of a tag field that sets `key`: it has a `:` and `key` is the text before it. */
  predicate SetsKey(piece: string, key: string)
  {
    ':' in piece && SplitOnce(piece, ':').0 == key
  }

  /** Some piece sets `key`. */
  predicate AnySetsKey(pieces: seq<string>, key: string)
  {
    exists i :: 0 <= i < |pieces| && SetsKey(pieces[i], key)
  }

  lemma AnySetsKeySnoc(pieces: seq<string>, key: string)
    requires pieces != []
    ensures AnySetsKey(pieces, key) <==> AnySetsKey(pieces[..|pieces| - 1], key) || SetsKey(pieces[|pieces| - 1], key)
  {
    var init := pieces[..|pieces| - 1];
    if AnySetsKey(pieces, key) {
      var i :| 0 <= i < |pieces| && SetsKey(pieces[i], key);
      if i < |init| {
        assert init[i] == pieces[i];
      }
    }
    if AnySetsKey(init, key) {
      var i :| 0 <= i < |init| && SetsKey(init[i], key);
      assert init[i] == pieces[i];
    }
  }

  /** A tag's key is set by a piece with a `:` that begins with that key, or it was there
      before: pieces without `:` add nothing. */
  lemma {:induction false} AddTagsKeys(tags: map<string, string>, pieces: seq<string>, key: string)
    ensures key in AddTags(tags, pieces) <==> key in tags || AnySetsKey(pieces, key)
    decreases |pieces|
  {
    if pieces != [] {
      var init := pieces[..|pieces| - 1];
      AddTagsKeys(tags, init, key);
      AnySetsKeySnoc(pieces, key);
      assert key in AddTags(tags, pieces) <==> key in AddTags(tags, init) || SetsKey(pieces[|pieces| - 1], key);
    }
  }

  /** A key set by several pieces keeps the value of the last of them. */
  lemma {:induction false} AddTagsLastWins(tags: map<string, string>, pieces: seq<string>, i: nat)
    requires i < |pieces| && ':' in pieces[i]
    requires forall j :: i < j < |pieces| && ':' in pieces[j] ==> SplitOnce(pieces[j], ':').0 != SplitOnce(pieces[i], ':').0
    ensures var (key, value) := SplitOnce(pieces[i], ':');
      key in AddTags(tags, pieces) && AddTags(tags, pieces)[key] == value
    decreases |pieces|
  {
    var init := pieces[..|pieces| - 1];
    if i < |pieces| - 1 {
      assert init[i] == pieces[i];
      AddTagsLastWins(tags, init, i);
    }
  }

  /** The counter, gauge and timer tables of `self.metrics`. */
  datatype Tables = Tables(counters: map<string, real>, gauges: map<string, real>, timers: map<string, seq<real>>)

  /** A counter's total, 0 before its first update. */
  function CounterOf(t: Tables, name: string): real
  {
    if name in t.counters then t.counters[name] else 0.0
  }

  /** A timer's recorded values, none before the first. */
  function TimerOf(t: Tables, name: string): seq<real>
  {
    if name in t.timers then t.timers[name] else []
  }

  /** The value a metric is stored with: divided by its sample rate when that is below 1; a
      rate of 0 makes Python's division raise `ZeroDivisionError`. */
  function Scaled(m: Metric): (r: Result<real, Exc>)
    ensures r.Failure? <==> m.sampleRate == 0.0
    ensures r.Failure? ==> r.error == ZeroDivisionError
    ensures r.Success? && m.sampleRate < 1.0 ==> r.value * m.sampleRate == m.value
    ensures m.sampleRate >= 1.0 ==> r == Success(m.value)
  {
    if m.sampleRate < 1.0 then
      if m.sampleRate == 0.0 then Failure(ZeroDivisionError) else Success(m.value / m.sampleRate)
    else Success(m.value)
  }

  /** The specification of `process_metric` (implemented by `StatsDServer.ProcessMetric`):
      the tables after it: nothing for no metric; otherwise the scaled value is
      added to a counter (`c`), replaces a gauge (`g`) or is appended to a timer (`ms`, `h`);
      any other type stores nothing. */
  function Store(t: Tables, metric: Option<Metric>): (r: Result<Tables, Exc>)
    ensures r.Failure? <==> metric.Some? && metric.value.sampleRate == 0.0
    ensures r.Failure? ==> r.error == ZeroDivisionError
    ensures metric.None? ==> r == Success(t)
  {
    match metric
    case None => Success(t)
    case Some(m) =>
      match Scaled(m)
      case Failure(e) => Failure(e)
      case Success(v) =>
        if m.metricType == "c" then Success(t.(counters := t.counters[m.name := CounterOf(t, m.name) + v]))
        else if m.metricType == "g" then Success(t.(gauges := t.gauges[m.name := v]))
        else if m.metricType == "ms" || m.metricType == "h" then Success(t.(timers := t.timers[m.name := TimerOf(t, m.name) + [v]]))
        else Success(t)
  }

  /** The types `process_metric` stores. */
  predicate Stored(metricType: string)
  {
    metricType in {"c", "g", "ms", "h"}
  }

  /** Storing a metric fails exactly for a sample rate of 0, and otherwise changes only the
      metric's own entry in the table of its type: a counter grows by the scaled value, a
      gauge becomes it, a timer gets it appended; the tags never matter. No metric, or a type
      not stored, leaves every table as it was. */
  lemma StoreChangesOneEntry(t: Tables, metric: Option<Metric>, other: string)
    ensures Store(t, metric).Failure? <==> metric.Some? && metric.value.sampleRate == 0.0
    ensures metric.None? ==> Store(t, metric) == Success(t)
    ensures metric.Some? && metric.value.sampleRate != 0.0 ==>
      var m := metric.value;
      var v := Scaled(m).value;
      var t' := Store(t, metric).value;
      && (!Stored(m.metricType) ==> t' == t)
      && (m.metricType == "c" ==> m.name in t'.counters && CounterOf(t', m.name) == CounterOf(t, m.name) + v && t'.gauges == t.gauges && t'.timers == t.timers)
      && (m.metricType == "g" ==> m.name in t'.gauges && t'.gauges[m.name] == v && t'.counters == t.counters && t'.timers == t.timers)
      && (m.metricType in {"ms", "h"} ==> m.name in t'.timers && TimerOf(t', m.name) == TimerOf(t, m.name) + [v] && t'.counters == t.counters && t'.gauges == t.gauges)
      && (other != m.name ==> CounterOf(t', other) == CounterOf(t, other) && TimerOf(t', other) == TimerOf(t, other)
                              && (other in t'.gauges <==> other in t.gauges) && (other in t.gauges ==> t'.gauges[other] == t.gauges[other]))
      && Store(t, Some(m.(tags := map[]))) == Store(t, metric)
  {
  }

  /** Sample rates below 1 scale the value up: a counter sampled at rate `r` counts each
      received event as `1 / r` events. */
  lemma SampledCounter(t: Tables, m: Metric)
    requires m.metricType == "c" && 0.0 < m.sampleRate < 1.0
    ensures Store(t, Some(m)).Success?
    ensures (CounterOf(Store(t, Some(m)).value, m.name) - CounterOf(t, m.name)) * m.sampleRate == m.value
  {
  }

  /** Processing a stream of metrics, none with a sample rate of 0, one after the other. */
  function StoreAll(t: Tables, ms: seq<Metric>): Tables
    requires forall i :: 0 <= i < |ms| ==> ms[i].sampleRate != 0.0
    decreases |ms|
  {
    if ms == [] then t
    else Store(StoreAll(t, ms[..|ms| - 1]), Some(ms[|ms| - 1])).value
  }

  /** The total of the scaled values of the counters named `name` in a stream. */
  function CounterSum(ms: seq<Metric>, name: string): real
    requires forall i :: 0 <= i < |ms| ==> ms[i].sampleRate != 0.0
    decreases |ms|
  {
    if ms == [] then 0.0
    else
      var m := ms[|ms| - 1];
      CounterSum(ms[..|ms| - 1], name) + (if m.name == name && m.metricType == "c" then Scaled(m).value else 0.0)
  }

  /** The scaled values of the timers and histograms named `name` in a stream, in order. */
  function TimerValues(ms: seq<Metric>, name: string): seq<real>
    requires forall i :: 0 <= i < |ms| ==> ms[i].sampleRate != 0.0
    decreases |ms|
  {
    if ms == [] then []
    else
      var m := ms[|ms| - 1];
      TimerValues(ms[..|ms| - 1], name) + (if m.name == name && m.metricType in {"ms", "h"} then [Scaled(m).value] else [])
  }

  /** Over a stream, a counter holds its old total plus the sum of the stream's scaled
      counter values for its name. */
  lemma {:induction false} CountersAggregate(t: Tables, ms: seq<Metric>, name: string)
    requires forall i :: 0 <= i < |ms| ==> ms[i].sampleRate != 0.0
    ensures CounterOf(StoreAll(t, ms), name) == CounterOf(t, name) + CounterSum(ms, name)
    decreases |ms|
  {
    if ms != [] {
      CountersAggregate(t, ms[..|ms| - 1], name);
      StoreChangesOneEntry(StoreAll(t, ms[..|ms| - 1]), Some(ms[|ms| - 1]), name);
    }
  }

  /** Over a stream, a timer holds its old values followed by the stream's scaled timer and
      histogram values for its name, in arrival order. */
  lemma {:induction false} TimersAggregate(t: Tables, ms: seq<Metric>, name: string)
    requires forall i :: 0 <= i < |ms| ==> ms[i].sampleRate != 0.0
    ensures TimerOf(StoreAll(t, ms), name) == TimerOf(t, name) + TimerValues(ms, name)
    decreases |ms|
  {
    if ms != [] {
      TimersAggregate(t, ms[..|ms| - 1], name);
      StoreChangesOneEntry(StoreAll(t, ms[..|ms| - 1]), Some(ms[|ms| - 1]), name);
    }
  }

  /** A metric of the stream that sets gauge `name`. */
  predicate SetsGauge(m: Metric, name: string)
  {
    m.name == name && m.metricType == "g"
  }

  /** Over a stream, a gauge holds the value of the last metric that set it. */
  lemma {:induction false} GaugeLastWins(t: Tables, ms: seq<Metric>, name: string, i: nat)
    requires forall k :: 0 <= k < |ms| ==> ms[k].sampleRate != 0.0
    requires i < |ms| && SetsGauge(ms[i], name)
    requires forall j :: i < j < |ms| ==> !SetsGauge(ms[j], name)
    ensures name in StoreAll(t, ms).gauges && StoreAll(t, ms).gauges[name] == Scaled(ms[i]).value
    decreases |ms|
  {
    var init := ms[..|ms| - 1];
    StoreChangesOneEntry(StoreAll(t, init), Some(ms[|ms| - 1]), name);
    if i < |init| {
      assert forall j :: 0 <= j < |init| ==> init[j] == ms[j];
      GaugeLastWins(t, init, name, i);
    }
  }

  /** A stream that sets no gauge `name` leaves that gauge as it was. */
  lemma {:induction false} GaugeUntouched(t: Tables, ms: seq<Metric>, name: string)
    requires forall k :: 0 <= k < |ms| ==> ms[k].sampleRate != 0.0
    requires forall j :: 0 <= j < |ms| ==> !SetsGauge(ms[j], name)
    ensures name in StoreAll(t, ms).gauges <==> name in t.gauges
    ensures name in t.gauges ==> StoreAll(t, ms).gauges[name] == t.gauges[name]
    decreases |ms|
  {
    if ms != [] {
      var init := ms[..|ms| - 1];
      assert forall j :: 0 <= j < |init| ==> init[j] == ms[j];
      GaugeUntouched(t, init, name);
      StoreChangesOneEntry(StoreAll(t, init), Some(ms[|ms| - 1]), name);
    }
  }

  /** `SimpleStatsDServer`'s tables; the socket, host, port and running flag are not
      modelled. */
  class StatsDServer {
    var counters: map<string, real>
    var gauges: map<string, real>
    var timers: map<string, seq<real>>

    /** The three tables as one value. */
    function Contents(): Tables
      reads this
    {
      Tables(counters, gauges, timers)
    }

    /** A server starts with empty tables. */
    constructor ()
      ensures Contents() == Tables(map[], map[], map[])
    {
      counters := map[];
      gauges := map[];
      timers := map[];
    }

    /** `parse_metric`, the implementation: reads the rate and tags field by field, then the
        name and value, and is proved to return what the specification `Parse` describes. */
    method ParseMetric(data: string, parse: FloatParser) returns (m: Option<Metric>)
      ensures m == Parse(data, parse)
    {
      var parts := Split(data, '|');
      if |parts| < 2 {
        return None;
      }
      var metricPart := parts[0];
      var metricType := parts[1];
      var rest := parts[2..];
      var sampleRate := 1.0;
      var tags: map<string, string> := map[];
      var i := 0;
      while i < |rest|
        invariant 0 <= i <= |rest|
        invariant RateAfter(rest[..i], parse) == Some(sampleRate)
        invariant TagsAfter(rest[..i]) == tags
      {
        var part := rest[i];
        assert rest[..i + 1][..i] == rest[..i];
        if StartsWith(part, "@") {
          var rate := parse(part[1..]);
          if rate.None? {
            RateFailureStays(rest, i + 1, parse);
            return None;
          }
          sampleRate := rate.value;
        } else if StartsWith(part, "#") {
          var pieces := Split(part[1..], ',');
          var j := 0;
          while j < |pieces|
            invariant 0 <= j <= |pieces|
            invariant tags == AddTags(TagsAfter(rest[..i]), pieces[..j])
          {
            var tag := pieces[j];
            assert pieces[..j + 1][..j] == pieces[..j];
            if ':' in tag {
              var (key, value) := SplitOnce(tag, ':');
              tags := tags[key := value];
            }
            j := j + 1;
          }
          assert pieces[..j] == pieces;
        }
        i := i + 1;
      }
      assert rest[..i] == rest;
      if ':' !in metricPart {
        return None;
      }
      var (name, text) := SplitOnce(metricPart, ':');
      var value := parse(text);
      if value.None? {
        return None;
      }
      m := Some(Metric(name, value.value, metricType, sampleRate, tags));
    }

    /** `process_metric`, the implementation: on success the tables become what the
        specification `Store` gives for the old tables; on a sample rate of 0 the division
        raises before anything is stored. */
    method ProcessMetric(metric: Option<Metric>) returns (error: Option<Exc>)
      modifies this
      ensures error.None? ==> Store(old(Contents()), metric) == Success(Contents())
      ensures error.Some? ==> Store(old(Contents()), metric) == Failure(error.value) && Contents() == old(Contents())
    {
      if metric.None? {
        return None;
      }
      var m := metric.value;
      var value := m.value;
      if m.sampleRate < 1.0 {
        if m.sampleRate == 0.0 {
          return Some(ZeroDivisionError);
        }
        value := value / m.sampleRate;
      }
      if m.metricType == "c" {
        if m.name !in counters {
          counters := counters[m.name := 0.0];
        }
        counters := counters[m.name := counters[m.name] + value];
        assert counters == old(counters)[m.name := CounterOf(old(Contents()), m.name) + value];
      } else if m.metricType == "g" {
        gauges := gauges[m.name := value];
      } else if m.metricType == "ms" {
        if m.name !in timers {
          timers := timers[m.name := []];
        }
        timers := timers[m.name := timers[m.name] + [value]];
        assert timers == old(timers)[m.name := TimerOf(old(Contents()), m.name) + [value]];
      } else if m.metricType == "h" {
        if m.name !in timers {
          timers := timers[m.name := []];
        }
        timers := timers[m.name := timers[m.name] + [value]];
        assert timers == old(timers)[m.name := TimerOf(old(Contents()), m.name) + [value]];
      }
      assert Scaled(m) == Success(value);
      error := None;
    }
  }
}
