/**
 * App-usage sync payloads: `{"sync_timestamp", "client_version", "logs": [...]}`.
 * Decoding the bytes with `json.loads` is outside the model: the parser
 * receives its outcome, `None` standing for a decode error.
 */
module AppUsageParser {
  import opened Wrappers
  import opened Json
  import opened PyText
  import opened Seqs

  const ValidCategories: set<string> := {"Productive", "Neutral", "Distracting"}

  datatype AppUsageEntry = AppUsageEntry(appName: string, category: string, durationMins: int, loggedDate: string)

  datatype ParseError = JsonDecodeError | NotAnObject | LogsNotAList

  datatype AppUsageParseResult = AppUsageParseResult(
    syncTimestamp: JsonValue,
    clientVersion: JsonValue,
    logs: seq<AppUsageEntry>,
    error: Option<ParseError>)

  function Failed(e: ParseError): AppUsageParseResult {
    AppUsageParseResult(JNull, JNull, [], Some(e))
  }

  /**
   * The category test as written, `raw if raw in VALID_CATEGORIES else
   * "Neutral"`: membership in a set hashes `raw`, so a list or dict category
   * raises TypeError (modelled as `None`).
   */
  function CategoryAsWritten(raw: JsonValue): (r: Option<string>)
    ensures r.None? <==> !Hashable(raw)
    ensures r.Some? ==> r.value in ValidCategories
  {
    if !Hashable(raw) then None
    else if raw.JString? && raw.s in ValidCategories then Some(raw.s)
    else Some("Neutral")
  }

  /**
   * The evidently intended category rule: a valid category is kept and any
   * other value, whatever its type, becomes "Neutral".
   */
  function NormaliseCategory(raw: JsonValue): (c: string)
    ensures c in ValidCategories
    ensures raw.JString? && raw.s in ValidCategories ==> c == raw.s
    ensures !(raw.JString? && raw.s in ValidCategories) ==> c == "Neutral"
  {
    if raw.JString? && raw.s in ValidCategories then raw.s else "Neutral"
  }

  /** A list-valued category makes the code as written raise, where "Neutral" was meant. */
  lemma ListCategoryRaises()
    ensures CategoryAsWritten(JArray([JString("Productive")])).None?
    ensures NormaliseCategory(JArray([JString("Productive")])) == "Neutral"
  {
  }

  /** On every hashable category the corrected rule agrees with the code as written. */
  lemma CorrectedAgreesOnHashable(raw: JsonValue)
    requires Hashable(raw)
    ensures CategoryAsWritten(raw) == Some(NormaliseCategory(raw))
  {
  }

  /** The three conditions under which an item of `logs` is kept. */
  predicate Accepted(item: JsonValue) {
    item.JObject?
    && IsNonBlankString(Get(item.fields, "app_name"))
    && IsInt(Get(item.fields, "duration_mins")) && IntValue(Get(item.fields, "duration_mins")) >= 1
    && IsNonBlankString(Get(item.fields, "logged_date"))
  }

  /** What every kept entry satisfies. */
  predicate ValidEntry(e: AppUsageEntry) {
    e.appName != [] && Strip(e.appName) == e.appName
    && e.loggedDate != [] && Strip(e.loggedDate) == e.loggedDate
    && e.durationMins >= 1
    && e.category in ValidCategories
  }

  /** The entry built from one item of `logs`, when the item is kept. */
  function EntryOf(item: JsonValue): (e: Option<AppUsageEntry>)
    ensures e.Some? <==> Accepted(item)
    ensures e.Some? ==> ValidEntry(e.value)
    ensures e.Some? ==>
      && e.value.appName == Strip(Get(item.fields, "app_name").s)
      && e.value.loggedDate == Strip(Get(item.fields, "logged_date").s)
      && e.value.durationMins == IntValue(Get(item.fields, "duration_mins"))
      && e.value.category == NormaliseCategory(GetOr(item.fields, "category", JString("Neutral")))
  {
    if !Accepted(item) then None
    else
      var f := item.fields;
      StripIdempotent(f["app_name"].s);
      StripIdempotent(f["logged_date"].s);
      Some(AppUsageEntry(
        Strip(f["app_name"].s),
        NormaliseCategory(GetOr(f, "category", JString("Neutral"))),
        IntValue(f["duration_mins"]),
        Strip(f["logged_date"].s)))
  }

  /** The entries kept from `items`, in input order. */
  function Kept(items: seq<JsonValue>): seq<AppUsageEntry>
  {
    FilterMap(EntryOf, items)
  }

  /** Reading one more item appends its entry when it is kept. */
  lemma KeptStep(items: seq<JsonValue>, i: nat)
    requires i < |items|
    ensures Kept(items[..i + 1]) == Kept(items[..i]) + (if EntryOf(items[i]).Some? then [EntryOf(items[i]).value] else [])
  {
    assert items[..i + 1][..i] == items[..i];
  }

  /** Every kept entry is valid, and no more entries come out than items went in. */
  lemma KeptValid(items: seq<JsonValue>)
    ensures |Kept(items)| <= |items|
    ensures forall k :: 0 <= k < |Kept(items)| ==> ValidEntry(Kept(items)[k])
  {
    FilterMapFrom(EntryOf, items);
    forall k | 0 <= k < |Kept(items)| ensures ValidEntry(Kept(items)[k]) {
      var i :| 0 <= i < |items| && EntryOf(items[i]) == Some(Kept(items)[k]);
    }
  }

  /**
   * `parse_app_usage_json` over the decoded document, with the corrected
   * category rule.
   */
  method ParseAppUsageJson(doc: Option<JsonValue>) returns (r: AppUsageParseResult)
    ensures doc.None? ==> r == Failed(JsonDecodeError)
    ensures doc.Some? && !doc.value.JObject? ==> r == Failed(NotAnObject)
    ensures doc.Some? && doc.value.JObject? && !GetOr(doc.value.fields, "logs", JArray([])).JArray?
      ==> r == Failed(LogsNotAList)
    ensures doc.Some? && doc.value.JObject? && GetOr(doc.value.fields, "logs", JArray([])).JArray?
      ==> r == AppUsageParseResult(
            Get(doc.value.fields, "sync_timestamp"),
            Get(doc.value.fields, "client_version"),
            Kept(GetOr(doc.value.fields, "logs", JArray([])).items),
            None)
  {
    if doc.None? {
      return Failed(JsonDecodeError);
    }
    var data := doc.value;
    if !data.JObject? {
      return Failed(NotAnObject);
    }
    var rawLogs := GetOr(data.fields, "logs", JArray([]));
    if !rawLogs.JArray? {
      return Failed(LogsNotAList);
    }
    var items := rawLogs.items;
    var logs: seq<AppUsageEntry> := [];
    var i := 0;
    while i < |items|
      invariant 0 <= i <= |items|
      invariant logs == Kept(items[..i])
    {
      var item := items[i];
      KeptStep(items, i);
      i := i + 1;
      if !item.JObject? {
        continue;
      }
      var appName := Get(item.fields, "app_name");
      if !appName.JString? || Strip(appName.s) == [] {
        continue;
      }
      var durationMins := Get(item.fields, "duration_mins");
      if !IsInt(durationMins) || IntValue(durationMins) < 1 {
        continue;
      }
      var loggedDate := Get(item.fields, "logged_date");
      if !loggedDate.JString? || Strip(loggedDate.s) == [] {
        continue;
      }
      var rawCat := GetOr(item.fields, "category", JString("Neutral"));
      var category := NormaliseCategory(rawCat);
      logs := logs + [AppUsageEntry(Strip(appName.s), category, IntValue(durationMins), Strip(loggedDate.s))];
    }
    assert items[..|items|] == items;
    r := AppUsageParseResult(Get(data.fields, "sync_timestamp"), Get(data.fields, "client_version"), logs, None);
  }

  /** Minutes logged in category `c`. */
  function CategoryTotal(logs: seq<AppUsageEntry>, c: string): int
  {
    if logs == [] then 0
    else CategoryTotal(logs[..|logs| - 1], c)
         + (if logs[|logs| - 1].category == c then logs[|logs| - 1].durationMins else 0)
  }

  /** Minutes logged overall. */
  function TotalDuration(logs: seq<AppUsageEntry>): int
  {
    if logs == [] then 0 else TotalDuration(logs[..|logs| - 1]) + logs[|logs| - 1].durationMins
  }

  function CategoriesOf(logs: seq<AppUsageEntry>): set<string> {
    set i | 0 <= i < |logs| :: logs[i].category
  }

  /** `totals.get(c, 0)`. */
  function TotalOr0(totals: map<string, int>, c: string): int {
    if c in totals then totals[c] else 0
  }

  /** `summarise_app_usage`: minutes per category present in the logs. */
  method SummariseAppUsage(result: AppUsageParseResult) returns (totals: map<string, int>)
    ensures totals.Keys == CategoriesOf(result.logs)
    ensures forall c :: c in totals ==> totals[c] == CategoryTotal(result.logs, c)
  {
    var logs := result.logs;
    totals := map[];
    var i := 0;
    while i < |logs|
      invariant 0 <= i <= |logs|
      invariant totals.Keys == CategoriesOf(logs[..i])
      invariant forall c :: c in totals ==> totals[c] == CategoryTotal(logs[..i], c)
    {
      var e := logs[i];
      assert logs[..i + 1][..i] == logs[..i];
      assert CategoriesOf(logs[..i + 1]) == CategoriesOf(logs[..i]) + {e.category};
      if e.category !in totals {
        AbsentCategoryTotal(logs[..i], e.category);
      }
      totals := totals[e.category := TotalOr0(totals, e.category) + e.durationMins];
      i := i + 1;
    }
    assert logs[..|logs|] == logs;
  }

  lemma {:induction false} AbsentCategoryTotal(logs: seq<AppUsageEntry>, c: string)
    requires c !in CategoriesOf(logs)
    ensures CategoryTotal(logs, c) == 0
  {
    if logs != [] {
      var init := logs[..|logs| - 1];
      assert CategoriesOf(init) <= CategoriesOf(logs) by {
        forall x | x in CategoriesOf(init) ensures x in CategoriesOf(logs) {
          var i :| 0 <= i < |init| && init[i].category == x;
          assert logs[i] == init[i];
        }
      }
      assert logs[|logs| - 1].category in CategoriesOf(logs);
      AbsentCategoryTotal(init, c);
    }
  }

  /**
   * When every entry has a valid category, the three category totals add up
   * to the total time logged, and only valid categories appear as keys.
   */
  lemma {:induction false} TotalsPartitionDuration(logs: seq<AppUsageEntry>)
    requires forall k :: 0 <= k < |logs| ==> logs[k].category in ValidCategories
    ensures CategoriesOf(logs) <= ValidCategories
    ensures CategoryTotal(logs, "Productive") + CategoryTotal(logs, "Neutral")
            + CategoryTotal(logs, "Distracting") == TotalDuration(logs)
  {
    if logs != [] {
      TotalsPartitionDuration(logs[..|logs| - 1]);
    }
  }
}
