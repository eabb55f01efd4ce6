/**
 * Apple Health export payloads: `{"user_id", "sync_timestamp",
 * "client_version", "metrics": [...]}`.  `json.loads` is outside the model;
 * the parser receives its outcome (`None` for a decode error).  `str()` of a
 * float, list or dict is the parameter `repr`.
 */
module HealthParser {
  import opened Wrappers
  import opened Json
  import opened Seqs

  /** Fields that the source copies through without checking keep their JSON value. */
  datatype HealthMetric = HealthMetric(
    metricType: string,
    dataClass: string,
    valueNum: Option<real>,
    valueCat: Option<string>,
    unit: JsonValue,
    startTime: JsonValue,
    endTime: JsonValue,
    sourceDevice: JsonValue,
    wasUserEntered: bool)

  datatype ParseError = JsonDecodeError | NotAnObject | MetricsNotAList

  datatype HealthParseResult = HealthParseResult(
    sourceUserId: JsonValue,
    syncTimestamp: JsonValue,
    clientVersion: JsonValue,
    metrics: seq<HealthMetric>,
    error: Option<ParseError>)

  function Failed(e: ParseError): HealthParseResult {
    HealthParseResult(JNull, JNull, JNull, [], Some(e))
  }

  /**
   * The value rule: a number goes to `value_num`, any other non-null value's
   * `str()` to `value_cat`, null to neither; never both.
   */
  function ValueFields(raw: JsonValue, repr: JsonValue -> string): (r: (Option<real>, Option<string>))
    ensures !(r.0.Some? && r.1.Some?)
    ensures IsNumber(raw) <==> r.0.Some?
    ensures IsNumber(raw) ==> r.0.value == FloatValue(raw)
    ensures (!IsNumber(raw) && !raw.JNull?) <==> r.1.Some?
    ensures r.1.Some? ==> r.1.value == Str(raw, repr)
  {
    if IsNumber(raw) then (Some(FloatValue(raw)), None)
    else if !raw.JNull? then (None, Some(Str(raw, repr)))
    else (None, None)
  }

  /**
   * `was_user_entered`: only a dict `metadata` with a truthy flag sets it
   * (`metadata or {}` turns a falsy value into an empty dict).
   */
  function WasUserEntered(metadata: JsonValue): (b: bool)
    ensures b <==> metadata.JObject? && Truthy(GetOr(metadata.fields, "was_user_entered", JBool(false)))
  {
    var meta := if Truthy(metadata) then metadata else JObject(map[]);
    if meta.JObject? then Truthy(GetOr(meta.fields, "was_user_entered", JBool(false))) else false
  }

  /** The metric built from one item of `metrics`, when the item is kept. */
  function MetricOf(repr: JsonValue -> string, m: JsonValue): Option<HealthMetric>
  {
    if !m.JObject? then None
    else
      var f := m.fields;
      var vals := ValueFields(Get(f, "value"), repr);
      var start := GetOr(f, "start_time", JString(""));
      if !Truthy(start) then None
      else Some(HealthMetric(
        Str(GetOr(f, "type", JString("unknown")), repr),
        Str(GetOr(f, "data_class", JString("quantity")), repr),
        vals.0, vals.1,
        Get(f, "unit"), start, Get(f, "end_time"), Get(f, "source_device"),
        WasUserEntered(Get(f, "metadata"))))
  }

  predicate ValidMetric(h: HealthMetric) {
    Truthy(h.startTime) && !(h.valueNum.Some? && h.valueCat.Some?)
  }

  /**
   * A kept item is a dict with a truthy `start_time`; a missing `type` or
   * `data_class` reads as "unknown" / "quantity".
   */
  lemma MetricOfFacts(repr: JsonValue -> string, m: JsonValue)
    ensures MetricOf(repr, m).Some? <==> m.JObject? && Truthy(GetOr(m.fields, "start_time", JString("")))
    ensures MetricOf(repr, m).Some? ==> ValidMetric(MetricOf(repr, m).value)
    ensures MetricOf(repr, m).Some? && "type" !in m.fields ==> MetricOf(repr, m).value.metricType == "unknown"
    ensures MetricOf(repr, m).Some? && "data_class" !in m.fields ==> MetricOf(repr, m).value.dataClass == "quantity"
  {
  }

  function Metrics(repr: JsonValue -> string, items: seq<JsonValue>): seq<HealthMetric> {
    FilterMap(x => MetricOf(repr, x), items)
  }

  /** Every kept metric is valid, and there are no more metrics than items. */
  lemma MetricsValid(repr: JsonValue -> string, items: seq<JsonValue>)
    ensures |Metrics(repr, items)| <= |items|
    ensures forall k :: 0 <= k < |Metrics(repr, items)| ==> ValidMetric(Metrics(repr, items)[k])
  {
    var f := x => MetricOf(repr, x);
    FilterMapFrom(f, items);
    forall k | 0 <= k < |Metrics(repr, items)| ensures ValidMetric(Metrics(repr, items)[k]) {
      var i :| 0 <= i < |items| && f(items[i]) == Some(Metrics(repr, items)[k]);
      MetricOfFacts(repr, items[i]);
    }
  }

  /** `parse_health_json` over the decoded document. */
  method ParseHealthJson(doc: Option<JsonValue>, repr: JsonValue -> string) returns (r: HealthParseResult)
    ensures doc.None? ==> r == Failed(JsonDecodeError)
    ensures doc.Some? && !doc.value.JObject? ==> r == Failed(NotAnObject)
    ensures doc.Some? && doc.value.JObject? && !GetOr(doc.value.fields, "metrics", JArray([])).JArray?
      ==> r == Failed(MetricsNotAList)
    ensures doc.Some? && doc.value.JObject? && GetOr(doc.value.fields, "metrics", JArray([])).JArray?
      ==> r == HealthParseResult(
            Get(doc.value.fields, "user_id"),
            Get(doc.value.fields, "sync_timestamp"),
            Get(doc.value.fields, "client_version"),
            Metrics(repr, GetOr(doc.value.fields, "metrics", JArray([])).items),
            None)
  {
    if doc.None? {
      return Failed(JsonDecodeError);
    }
    var data := doc.value;
    if !data.JObject? {
      return Failed(NotAnObject);
    }
    var rawMetrics := GetOr(data.fields, "metrics", JArray([]));
    if !rawMetrics.JArray? {
      return Failed(MetricsNotAList);
    }
    var items := rawMetrics.items;
    var metrics: seq<HealthMetric> := [];
    var i := 0;
    while i < |items|
      invariant 0 <= i <= |items|
      invariant metrics == Metrics(repr, items[..i])
    {
      var m := items[i];
      assert items[..i + 1][..i] == items[..i];
      i := i + 1;
      if !m.JObject? {
        continue;
      }
      var rawVal := Get(m.fields, "value");
      var valueNum: Option<real>, valueCat: Option<string>;
      if IsNumber(rawVal) {
        valueNum, valueCat := Some(FloatValue(rawVal)), None;
      } else if !rawVal.JNull? {
        valueNum, valueCat := None, Some(Str(rawVal, repr));
      } else {
        valueNum, valueCat := None, None;
      }
      var wasUserEntered := WasUserEntered(Get(m.fields, "metadata"));
      var start := GetOr(m.fields, "start_time", JString(""));
      if !Truthy(start) {
        continue;
      }
      metrics := metrics + [HealthMetric(
        Str(GetOr(m.fields, "type", JString("unknown")), repr),
        Str(GetOr(m.fields, "data_class", JString("quantity")), repr),
        valueNum, valueCat,
        Get(m.fields, "unit"), start, Get(m.fields, "end_time"), Get(m.fields, "source_device"),
        wasUserEntered)];
    }
    assert items[..|items|] == items;
    r := HealthParseResult(Get(data.fields, "user_id"), Get(data.fields, "sync_timestamp"),
                           Get(data.fields, "client_version"), metrics, None);
  }

  /** Number of metrics of type `t`. */
  function CountOf(ms: seq<HealthMetric>, t: string): nat {
    if ms == [] then 0
    else CountOf(ms[..|ms| - 1], t) + (if ms[|ms| - 1].metricType == t then 1 else 0)
  }

  function TypesOf(ms: seq<HealthMetric>): set<string> {
    set i | 0 <= i < |ms| :: ms[i].metricType
  }

  /** `summarise`: the number of metrics of each type present. */
  method Summarise(result: HealthParseResult) returns (counts: map<string, int>)
    ensures counts.Keys == TypesOf(result.metrics)
    ensures forall t :: t in counts ==> counts[t] == CountOf(result.metrics, t)
  {
    var ms := result.metrics;
    counts := map[];
    var i := 0;
    while i < |ms|
      invariant 0 <= i <= |ms|
      invariant counts.Keys == TypesOf(ms[..i])
      invariant forall t :: t in counts ==> counts[t] == CountOf(ms[..i], t)
    {
      var m := ms[i];
      assert ms[..i + 1][..i] == ms[..i];
      assert TypesOf(ms[..i + 1]) == TypesOf(ms[..i]) + {m.metricType};
      if m.metricType !in counts {
        AbsentTypeCount(ms[..i], m.metricType);
      }
      counts := counts[m.metricType := (if m.metricType in counts then counts[m.metricType] else 0) + 1];
      i := i + 1;
    }
    assert ms[..|ms|] == ms;
  }

  lemma {:induction false} AbsentTypeCount(ms: seq<HealthMetric>, t: string)
    requires t !in TypesOf(ms)
    ensures CountOf(ms, t) == 0
  {
    if ms != [] {
      var init := ms[..|ms| - 1];
      assert TypesOf(init) <= TypesOf(ms) by {
        forall x | x in TypesOf(init) ensures x in TypesOf(ms) {
          var i :| 0 <= i < |init| && init[i].metricType == x;
          assert ms[i] == init[i];
        }
      }
      assert ms[|ms| - 1].metricType in TypesOf(ms);
      AbsentTypeCount(init, t);
    }
  }

  /** The sum of the counts of the types listed in `keys`. */
  function SumCounts(ms: seq<HealthMetric>, keys: seq<string>): int {
    if keys == [] then 0 else SumCounts(ms, keys[..|keys| - 1]) + CountOf(ms, keys[|keys| - 1])
  }

  predicate Distinct(keys: seq<string>) {
    forall i, j :: 0 <= i < j < |keys| ==> keys[i] != keys[j]
  }

  /**
   * The counts add up to the number of metrics: summed over any list of
   * distinct types that covers every type present, they give |metrics|.
   */
  lemma {:induction false} CountsSumToLength(ms: seq<HealthMetric>, keys: seq<string>)
    requires Distinct(keys)
    requires TypesOf(ms) <= set k | k in keys
    ensures SumCounts(ms, keys) == |ms|
  {
    if ms == [] {
      ZeroCounts(keys);
    } else {
      var init := ms[..|ms| - 1];
      var t := ms[|ms| - 1].metricType;
      assert TypesOf(init) <= TypesOf(ms) by {
        forall x | x in TypesOf(init) ensures x in TypesOf(ms) {
          var i :| 0 <= i < |init| && init[i].metricType == x;
          assert ms[i] == init[i];
        }
      }
      assert t in TypesOf(ms);
      CountsSumToLength(init, keys);
      SumCountsStep(ms, keys);
    }
  }

  lemma {:induction false} ZeroCounts(keys: seq<string>)
    ensures SumCounts([], keys) == 0
  {
    if keys != [] {
      ZeroCounts(keys[..|keys| - 1]);
    }
  }

  /** Adding one metric of type t adds one to the sum when t is listed once. */
  lemma {:induction false} SumCountsStep(ms: seq<HealthMetric>, keys: seq<string>)
    requires ms != []
    requires Distinct(keys)
    ensures SumCounts(ms, keys) == SumCounts(ms[..|ms| - 1], keys)
      + (if ms[|ms| - 1].metricType in keys then 1 else 0)
  {
    if keys != [] {
      var ks := keys[..|keys| - 1];
      assert Distinct(ks);
      SumCountsStep(ms, ks);
      var t := ms[|ms| - 1].metricType;
      assert t in keys <==> t in ks || t == keys[|keys| - 1];
      assert t == keys[|keys| - 1] ==> t !in ks;
    }
  }
}
