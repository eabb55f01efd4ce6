/**
 * Study-session sync payloads: `{"sync_timestamp", "client_version",
 * "sessions": [...]}`.  `json.loads` is outside the model (its outcome is an
 * input, `None` for a decode error), and so is `_parse_iso`: it is the
 * parameter `parseIso`, a partial map from a timestamp string to the naive
 * wall-clock instant it denotes (in microseconds) once the timezone has been
 * dropped.
 */
module StudyParser {
  import opened Wrappers
  import opened Json
  import opened Seqs

  datatype StudyEntry = StudyEntry(
    startedAt: string,
    endedAt: string,
    durationMins: int,
    subjectTag: Option<string>,
    breaksTaken: int,
    notes: Option<string>)

  datatype ParseError = JsonDecodeError | NotAnObject | SessionsNotAList

  datatype StudyParseResult = StudyParseResult(
    syncTimestamp: JsonValue,
    clientVersion: JsonValue,
    sessions: seq<StudyEntry>,
    error: Option<ParseError>)

  const MicrosPerMinute: int := 60_000_000

  function Failed(e: ParseError): StudyParseResult {
    StudyParseResult(JNull, JNull, [], Some(e))
  }

  /** `int((ended - started).total_seconds() / 60)` for ended after started. */
  function WholeMinutes(started: int, ended: int): (m: int)
    requires started < ended
    ensures m >= 0
    ensures m * MicrosPerMinute <= ended - started < (m + 1) * MicrosPerMinute
  {
    (ended - started) / MicrosPerMinute
  }

  /** `breaks_taken`, falling back to 0 when missing, not an int, or negative. */
  function BreaksTaken(raw: JsonValue): (n: int)
    ensures n >= 0
    ensures IsInt(raw) && IntValue(raw) >= 0 ==> n == IntValue(raw)
    ensures !(IsInt(raw) && IntValue(raw) >= 0) ==> n == 0
  {
    if IsInt(raw) && IntValue(raw) >= 0 then IntValue(raw) else 0
  }

  /** A string field, or `None` when the value is not a string. */
  function OptString(raw: JsonValue): (r: Option<string>)
    ensures raw.JString? <==> r.Some?
    ensures raw.JString? ==> r.value == raw.s
  {
    if raw.JString? then Some(raw.s) else None
  }

  /** The session built from one item of `sessions`, when the item is kept. */
  function SessionOf(parseIso: string -> Option<int>, item: JsonValue): Option<StudyEntry>
  {
    if !item.JObject? then None
    else
      var f := item.fields;
      var started := Get(f, "started_at");
      var ended := Get(f, "ended_at");
      if !started.JString? || !ended.JString? then None
      else if parseIso(started.s).None? || parseIso(ended.s).None? then None
      else
        var s, e := parseIso(started.s).value, parseIso(ended.s).value;
        if e <= s then None
        else if WholeMinutes(s, e) < 1 then None
        else Some(StudyEntry(started.s, ended.s, WholeMinutes(s, e),
                             OptString(Get(f, "subject_tag")),
                             BreaksTaken(GetOr(f, "breaks_taken", JInt(0))),
                             OptString(Get(f, "notes"))))
  }

  /** What every kept session satisfies. */
  predicate ValidSession(parseIso: string -> Option<int>, e: StudyEntry) {
    && parseIso(e.startedAt).Some? && parseIso(e.endedAt).Some?
    && parseIso(e.startedAt).value < parseIso(e.endedAt).value
    && e.durationMins == WholeMinutes(parseIso(e.startedAt).value, parseIso(e.endedAt).value)
    && e.durationMins >= 1
    && e.breaksTaken >= 0
  }

  /**
   * The filter of the loop: an item is kept exactly when it is an object
   * whose `started_at` and `ended_at` are strings that parse, in increasing
   * order and at least a whole minute apart.
   */
  predicate Accepted(parseIso: string -> Option<int>, item: JsonValue) {
    && item.JObject?
    && Get(item.fields, "started_at").JString? && Get(item.fields, "ended_at").JString?
    && parseIso(Get(item.fields, "started_at").s).Some?
    && parseIso(Get(item.fields, "ended_at").s).Some?
    && parseIso(Get(item.fields, "started_at").s).value < parseIso(Get(item.fields, "ended_at").s).value
    && WholeMinutes(parseIso(Get(item.fields, "started_at").s).value,
                    parseIso(Get(item.fields, "ended_at").s).value) >= 1
  }

  /**
   * An item is kept exactly when it passes the filter; a kept item keeps its
   * timestamp strings unchanged and is a valid session.
   */
  lemma SessionOfValid(parseIso: string -> Option<int>, item: JsonValue)
    ensures SessionOf(parseIso, item).Some? <==> Accepted(parseIso, item)
    ensures SessionOf(parseIso, item).Some? ==>
      && item.JObject?
      && Get(item.fields, "started_at") == JString(SessionOf(parseIso, item).value.startedAt)
      && Get(item.fields, "ended_at") == JString(SessionOf(parseIso, item).value.endedAt)
      && ValidSession(parseIso, SessionOf(parseIso, item).value)
  {
  }

  /** Kept sessions, in input order. */
  function Sessions(parseIso: string -> Option<int>, items: seq<JsonValue>): seq<StudyEntry>
  {
    FilterMap(x => SessionOf(parseIso, x), items)
  }

  /** Every kept session is valid, and there are no more sessions than items. */
  lemma SessionsValid(parseIso: string -> Option<int>, items: seq<JsonValue>)
    ensures |Sessions(parseIso, items)| <= |items|
    ensures forall k :: 0 <= k < |Sessions(parseIso, items)| ==>
      ValidSession(parseIso, Sessions(parseIso, items)[k])
  {
    var f := x => SessionOf(parseIso, x);
    FilterMapFrom(f, items);
    forall k | 0 <= k < |Sessions(parseIso, items)|
      ensures ValidSession(parseIso, Sessions(parseIso, items)[k])
    {
      var i :| 0 <= i < |items| && f(items[i]) == Some(Sessions(parseIso, items)[k]);
      SessionOfValid(parseIso, items[i]);
    }
  }

  /** The number of sessions kept is the number of items that pass the filter. */
  lemma SessionsCount(parseIso: string -> Option<int>, items: seq<JsonValue>)
    ensures |Sessions(parseIso, items)| == |set i | 0 <= i < |items| && Accepted(parseIso, items[i])|
  {
    var f := x => SessionOf(parseIso, x);
    FilterMapCount(f, items);
    forall i | 0 <= i < |items| ensures f(items[i]).Some? <==> Accepted(parseIso, items[i]) {
      SessionOfValid(parseIso, items[i]);
    }
    assert AcceptedAt(f, items) == set i | 0 <= i < |items| && Accepted(parseIso, items[i]);
  }

  /** `parse_study_json` over the decoded document. */
  method ParseStudyJson(doc: Option<JsonValue>, parseIso: string -> Option<int>) returns (r: StudyParseResult)
    ensures doc.None? ==> r == Failed(JsonDecodeError)
    ensures doc.Some? && !doc.value.JObject? ==> r == Failed(NotAnObject)
    ensures doc.Some? && doc.value.JObject? && !GetOr(doc.value.fields, "sessions", JArray([])).JArray?
      ==> r == Failed(SessionsNotAList)
    ensures doc.Some? && doc.value.JObject? && GetOr(doc.value.fields, "sessions", JArray([])).JArray?
      ==> r == StudyParseResult(
            Get(doc.value.fields, "sync_timestamp"),
            Get(doc.value.fields, "client_version"),
            Sessions(parseIso, GetOr(doc.value.fields, "sessions", JArray([])).items),
            None)
  {
    if doc.None? {
      return Failed(JsonDecodeError);
    }
    var data := doc.value;
    if !data.JObject? {
      return Failed(NotAnObject);
    }
    var rawSessions := GetOr(data.fields, "sessions", JArray([]));
    if !rawSessions.JArray? {
      return Failed(SessionsNotAList);
    }
    var items := rawSessions.items;
    var sessions: seq<StudyEntry> := [];
    var i := 0;
    while i < |items|
      invariant 0 <= i <= |items|
      invariant sessions == Sessions(parseIso, items[..i])
    {
      var item := items[i];
      assert items[..i + 1][..i] == items[..i];
      i := i + 1;
      if !item.JObject? {
        continue;
      }
      var startedStr := Get(item.fields, "started_at");
      var endedStr := Get(item.fields, "ended_at");
      if !startedStr.JString? || !endedStr.JString? {
        continue;
      }
      var startedDt := parseIso(startedStr.s);
      var endedDt := parseIso(endedStr.s);
      if startedDt.None? || endedDt.None? {
        continue;
      }
      if endedDt.value <= startedDt.value {
        continue;
      }
      var durationMins := WholeMinutes(startedDt.value, endedDt.value);
      if durationMins < 1 {
        continue;
      }
      var breaksTaken := GetOr(item.fields, "breaks_taken", JInt(0));
      var breaks := if IsInt(breaksTaken) then IntValue(breaksTaken) else 0;
      if !IsInt(breaksTaken) || breaks < 0 {
        breaks := 0;
      }
      var subjectTag := OptString(Get(item.fields, "subject_tag"));
      var notes := OptString(Get(item.fields, "notes"));
      sessions := sessions + [StudyEntry(startedStr.s, endedStr.s, durationMins, subjectTag, breaks, notes)];
    }
    assert items[..|items|] == items;
    r := StudyParseResult(Get(data.fields, "sync_timestamp"), Get(data.fields, "client_version"), sessions, None);
  }
}
