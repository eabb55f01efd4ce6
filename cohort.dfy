// The cohort_students table: the camelCase/snake_case column mapping, the
// rows the bulk insert writes and the frame the startup fetch returns.

module Cohort {
  import opened Wrappers
  import opened Seqs
  import opened Features

  /** A dict literal or comprehension over `items`: a later entry for a key wins. */
  function MapOf(items: seq<(string, string)>): (m: map<string, string>)
    ensures forall k :: k in m <==> exists i :: 0 <= i < |items| && items[i].0 == k
  {
    if items == [] then map[]
    else
      var m := MapOf(items[..|items| - 1]);
      assert forall i :: 0 <= i < |items| - 1 ==> items[..|items| - 1][i] == items[i];
      m[items[|items| - 1].0 := items[|items| - 1].1]
  }

  predicate DistinctKeys(items: seq<(string, string)>) {
    forall i, j :: 0 <= i < j < |items| ==> items[i].0 != items[j].0
  }

  predicate DistinctValues(items: seq<(string, string)>) {
    forall i, j :: 0 <= i < j < |items| ==> items[i].1 != items[j].1
  }

  /** With distinct keys, every entry is what the map holds for its key. */
  lemma {:induction false} MapOfLookup(items: seq<(string, string)>, i: nat)
    requires DistinctKeys(items) && i < |items|
    ensures items[i].0 in MapOf(items) && MapOf(items)[items[i].0] == items[i].1
  {
    var init := items[..|items| - 1];
    if i < |items| - 1 {
      assert init[i] == items[i];
      MapOfLookup(init, i);
    }
  }

  function Swap(p: (string, string)): (string, string) { (p.1, p.0) }

  /** The items of `PY_TO_DB`, in insertion order. */
  const PY_TO_DB_ITEMS: seq<(string, string)> := [
    ("studyHours", "study_hours"),
    ("attentionSpan", "attention_span"),
    ("focusRatio", "focus_ratio"),
    ("sleepHours", "sleep_hours"),
    ("breakFreq", "break_freq"),
    ("currentGrade", "current_grade")
  ]

  /** Python / CSV name to database column. */
  const PY_TO_DB: map<string, string> := MapOf(PY_TO_DB_ITEMS)

  /** `{v: k for k, v in PY_TO_DB.items()}`. */
  const DB_TO_PY: map<string, string> := MapOf(Map(Swap, PY_TO_DB_ITEMS))

  lemma KeysDistinct()
    ensures DistinctKeys(PY_TO_DB_ITEMS)
  {
  }

  lemma ValuesDistinct()
    ensures DistinctValues(PY_TO_DB_ITEMS)
  {
  }

  /**
   * A mapping with distinct keys and distinct values is inverted by
   * swapping its items: both round trips are the identity.
   */
  lemma InvertRoundTrip(items: seq<(string, string)>)
    requires DistinctKeys(items) && DistinctValues(items)
    ensures forall k :: k in MapOf(items) ==>
      MapOf(items)[k] in MapOf(Map(Swap, items)) && MapOf(Map(Swap, items))[MapOf(items)[k]] == k
    ensures forall v :: v in MapOf(Map(Swap, items)) ==>
      MapOf(Map(Swap, items))[v] in MapOf(items) && MapOf(items)[MapOf(Map(Swap, items))[v]] == v
  {
    var m := MapOf(items);
    var sw := Map(Swap, items);
    var inv := MapOf(sw);
    assert DistinctKeys(sw) by {
      forall i, j | 0 <= i < j < |sw| ensures sw[i].0 != sw[j].0 {
        assert sw[i].0 == items[i].1 && sw[j].0 == items[j].1;
      }
    }
    forall k | k in m ensures m[k] in inv && inv[m[k]] == k {
      var i :| 0 <= i < |items| && items[i].0 == k;
      MapOfLookup(items, i);
      MapOfLookup(sw, i);
    }
    forall v | v in inv ensures inv[v] in m && m[inv[v]] == v {
      var i :| 0 <= i < |sw| && sw[i].0 == v;
      MapOfLookup(sw, i);
      MapOfLookup(items, i);
    }
  }

  /** `DB_TO_PY` undoes `PY_TO_DB` and vice versa. */
  lemma PyDbRoundTrip()
    ensures forall k :: k in PY_TO_DB ==> PY_TO_DB[k] in DB_TO_PY && DB_TO_PY[PY_TO_DB[k]] == k
    ensures forall v :: v in DB_TO_PY ==> DB_TO_PY[v] in PY_TO_DB && PY_TO_DB[DB_TO_PY[v]] == v
  {
    KeysDistinct();
    ValuesDistinct();
    InvertRoundTrip(PY_TO_DB_ITEMS);
  }

  /** No two Python names share a database column. */
  lemma PyToDbInjective()
    ensures forall a, b :: a in PY_TO_DB && b in PY_TO_DB && a != b ==> PY_TO_DB[a] != PY_TO_DB[b]
  {
    PyDbRoundTrip();
  }

  /** `ALL_COLS = FEATURES + [TARGET]`. */
  function AllCols(): (cols: seq<string>)
    ensures |cols| == 6
    ensures forall i :: 0 <= i < 5 ==> cols[i] == Name(FEATURES[i])
    ensures cols[5] == TARGET
  {
    Map(Name, FEATURES) + [TARGET]
  }

  const ALL_COLS_TEXT: seq<string> :=
    ["studyHours", "attentionSpan", "focusRatio", "sleepHours", "breakFreq", "currentGrade"]

  lemma AllColsLiteral()
    ensures AllCols() == ALL_COLS_TEXT
  {
  }

  predicate DistinctNames(cols: seq<string>) {
    forall i, j :: 0 <= i < j < |cols| ==> cols[i] != cols[j]
  }

  /** The six column names are distinct. */
  lemma AllColsDistinct()
    ensures DistinctNames(AllCols())
  {
    AllColsLiteral();
  }

  /** `ALL_COLS` lists the keys of `PY_TO_DB` in its order. */
  lemma AllColsAreKeys()
    ensures forall i :: 0 <= i < 6 ==> AllCols()[i] == PY_TO_DB_ITEMS[i].0
  {
    AllColsLiteral();
  }

  /** Every name of `ALL_COLS` is a key of `PY_TO_DB`. */
  lemma AllColsMapped()
    ensures forall i :: 0 <= i < 6 ==> AllCols()[i] in PY_TO_DB
  {
    AllColsDomain();
  }

  /** A name is a key of `PY_TO_DB` exactly when it is one of `ALL_COLS`. */
  lemma AllColsDomain()
    ensures forall c :: c in PY_TO_DB <==> c in AllCols()
  {
    AllColsAreKeys();
    forall c ensures c in PY_TO_DB <==> c in AllCols() {
      if c in PY_TO_DB {
        var i :| 0 <= i < 6 && PY_TO_DB_ITEMS[i].0 == c;
        assert AllCols()[i] == c;
      }
    }
  }

  function DbName(c: string): string
    requires c in PY_TO_DB
  {
    PY_TO_DB[c]
  }

  /** `DB_COLS = [PY_TO_DB[c] for c in ALL_COLS]`. */
  function DbCols(): (cols: seq<string>)
    ensures |cols| == |AllCols()|
    ensures forall i :: 0 <= i < |cols| ==> AllCols()[i] in PY_TO_DB && cols[i] == PY_TO_DB[AllCols()[i]]
  {
    AllColsMapped();
    seq(|AllCols()|, i requires 0 <= i < |AllCols()| => DbName(AllCols()[i]))
  }

  /** The column list of `INSERT_SQL` and `SELECT_SQL`. */
  const SQL_COLUMNS: seq<string> :=
    ["study_hours", "attention_span", "focus_ratio", "sleep_hours", "break_freq", "current_grade"]

  /** `DB_COLS` is the column order the insert and the select statements use. */
  lemma DbColsMatchSql()
    ensures DbCols() == SQL_COLUMNS
  {
    KeysDistinct();
    AllColsAreKeys();
    assert forall i :: 0 <= i < 6 ==> SQL_COLUMNS[i] == PY_TO_DB_ITEMS[i].1;
    forall i | 0 <= i < 6 ensures DbCols()[i] == SQL_COLUMNS[i] {
      MapOfLookup(PY_TO_DB_ITEMS, i);
    }
  }

  /** `.rename(columns=DB_TO_PY)` on one column: names outside the mapping stay as they are. */
  function RenameCol(c: string): string {
    if c in DB_TO_PY then DB_TO_PY[c] else c
  }

  /** The columns of the fetched frame. */
  function RenamedCols(): seq<string> {
    Map(RenameCol, DbCols())
  }

  /** The fetched frame has exactly the `ALL_COLS` columns, in that order. */
  lemma RenamedColsAreAllCols()
    ensures RenamedCols() == AllCols()
  {
    PyDbRoundTrip();
    var db := DbCols();
    forall i | 0 <= i < 6 ensures RenamedCols()[i] == AllCols()[i] {
      assert db[i] == PY_TO_DB[AllCols()[i]];
    }
  }

  /** One table row: the six REAL columns in `SQL_COLUMNS` order. */
  type DbTuple = t: seq<real> | |t| == 6 witness [0.0, 0.0, 0.0, 0.0, 0.0, 0.0]

  /** The insert tuple of one frame row: its six values in `ALL_COLS` order. */
  function InsertTuple(r: Row): DbTuple {
    [r.features.studyHours, r.features.attentionSpan, r.features.focusRatio,
     r.features.sleepHours, r.features.breakFreq, r.currentGrade]
  }

  /**
   * `sync_bulk_insert`: the rows written (one tuple per frame row, in frame
   * order) and the count it returns.
   */
  function BulkInsert(df: Frame): (r: (seq<DbTuple>, int))
    ensures |r.0| == |df| && r.1 == |df|
    ensures forall i :: 0 <= i < |df| ==> r.0[i] == InsertTuple(df[i])
  {
    var rows := Map(InsertTuple, df);
    (rows, |rows|)
  }

  /** First position of `name` in `cols`. */
  function ColumnIndex(cols: seq<string>, name: string): (i: nat)
    requires name in cols
    ensures i < |cols| && cols[i] == name
    ensures forall j :: 0 <= j < i ==> cols[j] != name
  {
    if cols[0] == name then 0 else 1 + ColumnIndex(cols[1..], name)
  }

  /** In a list of distinct names, the first position of each name is its position. */
  lemma ColumnIndexOfDistinct(cols: seq<string>, i: nat)
    requires DistinctNames(cols) && i < |cols|
    ensures ColumnIndex(cols, cols[i]) == i
  {
  }

  /** The value of a column, looked up by name among the fetched frame's columns. */
  function Column(t: DbTuple, name: string): real
    requires name in AllCols()
  {
    RenamedColsAreAllCols();
    t[ColumnIndex(RenamedCols(), name)]
  }

  lemma NamesInAllCols()
    ensures forall f: Feature :: Name(f) in AllCols()
    ensures TARGET in AllCols()
  {
    forall f: Feature ensures Name(f) in AllCols() {
      assert AllCols()[Index(f)] == Name(f);
    }
    assert AllCols()[5] == TARGET;
  }

  /** A frame row read back from a fetched tuple. */
  function FrameRow(t: DbTuple): Row {
    NamesInAllCols();
    Row(Values(Column(t, Name(StudyHours)), Column(t, Name(AttentionSpan)), Column(t, Name(FocusRatio)),
               Column(t, Name(SleepHours)), Column(t, Name(BreakFreq))),
        Column(t, TARGET))
  }

  /** The outcome of running `SELECT_SQL`: an exception, or the rows ordered by id. */
  datatype Query = QueryFailed | Fetched(rows: seq<DbTuple>)

  /**
   * `async_fetch_cohort_df`: None on any error or when the table is empty,
   * otherwise the rows as a frame with camelCase columns.
   */
  function FetchCohortDf(q: Query): (r: Option<Frame>)
    ensures r.None? <==> q.QueryFailed? || q.rows == []
    ensures r.Some? ==> |r.value| == |q.rows| > 0
  {
    if q.QueryFailed? || q.rows == [] then None
    else Some(Map(FrameRow, q.rows))
  }

  /** Looking up column `ALL_COLS[i]` by name finds position `i`. */
  lemma ColumnAt(t: DbTuple, i: nat)
    requires i < 6
    ensures AllCols()[i] in AllCols() && Column(t, AllCols()[i]) == t[i]
  {
    RenamedColsAreAllCols();
    AllColsDistinct();
    ColumnIndexOfDistinct(RenamedCols(), i);
  }

  /** Reading a written tuple back gives the frame row it was built from. */
  lemma FrameRowInsertTuple(r: Row)
    ensures FrameRow(InsertTuple(r)) == r
  {
    var t := InsertTuple(r);
    var cols := AllCols();
    ColumnAt(t, 0);
    ColumnAt(t, 1);
    ColumnAt(t, 2);
    ColumnAt(t, 3);
    ColumnAt(t, 4);
    ColumnAt(t, 5);
    assert cols[0] == Name(StudyHours) && cols[1] == Name(AttentionSpan) && cols[2] == Name(FocusRatio);
    assert cols[3] == Name(SleepHours) && cols[4] == Name(BreakFreq) && cols[5] == TARGET;
    assert FrameRow(t) == Row(Values(t[0], t[1], t[2], t[3], t[4]), t[5]);
  }

  lemma ReadBackAt(df: Frame, i: nat)
    requires i < |df|
    ensures |Map(FrameRow, Map(InsertTuple, df))| == |df|
    ensures Map(FrameRow, Map(InsertTuple, df))[i] == df[i]
  {
    FrameRowInsertTuple(df[i]);
  }

  /** Reading back the tuples of a frame gives the frame. */
  lemma ReadBackInserted(df: Frame)
    ensures Map(FrameRow, Map(InsertTuple, df)) == df
  {
    var back := Map(FrameRow, Map(InsertTuple, df));
    forall i | 0 <= i < |df| ensures back[i] == df[i] {
      ReadBackAt(df, i);
    }
  }

  /** Seeding a non-empty frame into an empty table and fetching it returns the same frame. */
  lemma InsertThenFetch(df: Frame)
    requires df != []
    ensures FetchCohortDf(Fetched(BulkInsert(df).0)) == Some(df)
  {
    ReadBackInserted(df);
  }
}
