// scripts/seed_db.py: the `.env` loader and the seed/skip/truncate
// decision of the seeding script.

module SeedDb {
  import opened Wrappers
  import opened PyText
  import opened Seqs
  import opened Features
  import opened Cohort

  // ----- the .env loader -----

  /** What one line of the file means: nothing, or a `KEY=value` setting. */
  datatype EnvLine = Ignored | Setting(key: string, value: string)

  /**
   * A line is stripped; blank lines, comments and lines without '=' are
   * ignored; otherwise it splits at its first '=' and both halves are
   * stripped (so the value may itself contain '=').
   */
  function ClassifyLine(raw: string): (r: EnvLine)
    ensures r.Setting? <==> Strip(raw) != [] && !StartsWith(Strip(raw), "#") && HasChar(Strip(raw), '=')
    ensures r.Setting? ==> !HasChar(r.key, '=')
  {
    var line := Strip(raw);
    if line == [] || StartsWith(line, "#") || !HasChar(line, '=') then Ignored
    else
      var (key, _, val) := Partition(line, '=');
      assert !HasChar(Strip(key), '=') by {
        StripInside(key);
      }
      Setting(Strip(key), Strip(val))
  }

  /**
   * A setting splits the stripped line at its first '=': the key is the
   * stripped text before it, the value the stripped text after it.
   */
  lemma ClassifyLineSplit(raw: string)
    requires ClassifyLine(raw).Setting?
    ensures var line := Strip(raw); var k := IndexOf(line, '=');
      && k < |line| && line[k] == '='
      && ClassifyLine(raw) == Setting(Strip(line[..k]), Strip(line[k + 1..]))
  {
    var line := Strip(raw);
    var k := IndexOf(line, '=');
    assert k < |line| by {
      var i :| 0 <= i < |line| && line[i] == '=';
    }
    assert Partition(line, '=') == (line[..k], true, line[k + 1..]);
  }

  /** Stripping keeps only characters of the original. */
  lemma StripInside(s: string)
    ensures forall c :: HasChar(Strip(s), c) ==> HasChar(s, c)
  {
    var l := StripLeft(s);
    var r := StripRight(l);
    assert Strip(s) == r;
    forall c | HasChar(r, c) ensures HasChar(s, c) {
      var i :| 0 <= i < |r| && r[i] == c;
      assert r == l[..|r|];
      assert l[i] == c;
      var j := |s| - |l| + i;
      assert l == s[|s| - |l|..];
      assert 0 <= j < |s| && s[j] == c;
    }
  }

  /** `putenv` refuses an empty name and a NUL byte in the name or the value. */
  predicate Refused(key: string, value: string) {
    key == [] || HasChar(key, 0 as char) || HasChar(value, 0 as char)
  }

  /** The environment while the file is read, and whether a setting raised ValueError. */
  datatype LoadState = LoadState(env: map<string, string>, failed: bool)

  /**
   * `os.environ.setdefault(key, value)`: a variable already set is left as
   * it is; a new one is stored unless `putenv` refuses it, which raises and
   * ends the script.
   */
  function SetDefault(st: LoadState, l: EnvLine): (r: LoadState)
    ensures st.failed ==> r == st
    ensures forall k :: k in st.env ==> k in r.env && r.env[k] == st.env[k]
  {
    if st.failed || l.Ignored? || l.key in st.env then st
    else if Refused(l.key, l.value) then st.(failed := true)
    else st.(env := st.env[l.key := l.value])
  }

  /** The state after applying the classified lines `ls` in order. */
  function Apply(st: LoadState, ls: seq<EnvLine>): LoadState {
    if ls == [] then st
    else SetDefault(Apply(st, ls[..|ls| - 1]), ls[|ls| - 1])
  }

  /** The state after reading the lines of the file. */
  function EnvAfter(st: LoadState, lines: seq<string>): LoadState {
    Apply(st, Map(ClassifyLine, lines))
  }

  /** Applying lines in two parts is applying the first part and then the second. */
  lemma {:induction false} ApplyAppend(st: LoadState, a: seq<EnvLine>, b: seq<EnvLine>)
    ensures Apply(st, a + b) == Apply(Apply(st, a), b)
  {
    if b == [] {
      assert a + b == a;
    } else {
      assert (a + b)[..|a + b| - 1] == a + b[..|b| - 1];
      ApplyAppend(st, a, b[..|b| - 1]);
    }
  }

  /** A variable set before the file is read is never overwritten, and a raised error sticks. */
  lemma {:induction false} NeverOverwrites(st: LoadState, ls: seq<EnvLine>)
    ensures forall k :: k in st.env ==> k in Apply(st, ls).env && Apply(st, ls).env[k] == st.env[k]
    ensures st.failed ==> Apply(st, ls) == st
  {
    if ls != [] {
      NeverOverwrites(st, ls[..|ls| - 1]);
    }
  }

  /** The line `ls[j]` sets `key`. */
  predicate Sets(ls: seq<EnvLine>, j: nat, key: string)
    requires j < |ls|
  {
    ls[j].Setting? && ls[j].key == key
  }

  /** Only variables set beforehand or named by some line are ever defined. */
  lemma {:induction false} OnlyNamedKeys(st: LoadState, ls: seq<EnvLine>, key: string)
    requires key in Apply(st, ls).env
    ensures key in st.env || exists j :: 0 <= j < |ls| && Sets(ls, j, key)
  {
    if ls != [] {
      var init := ls[..|ls| - 1];
      if key in Apply(st, init).env {
        OnlyNamedKeys(st, init, key);
        if key !in st.env {
          var j :| 0 <= j < |init| && Sets(init, j, key);
          assert Sets(ls, j, key);
        }
      } else {
        assert Sets(ls, |ls| - 1, key);
      }
    }
  }

  /**
   * First writer wins: the first line that sets a variable not set
   * beforehand determines its value, whatever later lines say, unless
   * reading the file raised.
   */
  lemma FirstSettingWins(st: LoadState, ls: seq<EnvLine>, i: nat)
    requires i < |ls| && ls[i].Setting? && ls[i].key !in st.env
    requires forall j :: 0 <= j < i ==> !Sets(ls, j, ls[i].key)
    requires !Apply(st, ls).failed
    ensures ls[i].key in Apply(st, ls).env && Apply(st, ls).env[ls[i].key] == ls[i].value
  {
    var key := ls[i].key;
    var before := Apply(st, ls[..i]);
    var after := Apply(st, ls[..i + 1]);
    assert ls[..i + 1][..i] == ls[..i];
    forall j | 0 <= j < i ensures !Sets(ls[..i], j, key) {
      assert ls[..i][j] == ls[j] && !Sets(ls, j, key);
    }
    if key in before.env {
      OnlyNamedKeys(st, ls[..i], key);
      assert false;
    }
    assert ls == ls[..i + 1] + ls[i + 1..];
    ApplyAppend(st, ls[..i + 1], ls[i + 1..]);
    NeverOverwrites(after, ls[i + 1..]);
  }

  /** Applying one more line. */
  lemma ApplyStep(st: LoadState, ls: seq<EnvLine>, i: nat)
    requires i < |ls|
    ensures Apply(st, ls[..i + 1]) == SetDefault(Apply(st, ls[..i]), ls[i])
  {
    assert ls[..i + 1][..i] == ls[..i];
  }

  /** After the line that raises, the remaining lines change nothing. */
  lemma FailureEndsLoading(st: LoadState, ls: seq<EnvLine>, i: nat)
    requires i < |ls| && Apply(st, ls[..i + 1]).failed
    ensures Apply(st, ls) == Apply(st, ls[..i + 1])
  {
    var done, rest := ls[..i + 1], ls[i + 1..];
    assert ls == done + rest;
    ApplyAppend(st, done, rest);
    FailedSticks(Apply(st, done), rest);
  }

  /** Once a setting has raised, no further line changes the state. */
  lemma {:induction false} FailedSticks(st: LoadState, ls: seq<EnvLine>)
    requires st.failed
    ensures Apply(st, ls) == st
  {
    if ls != [] {
      FailedSticks(st, ls[..|ls| - 1]);
    }
  }

  /** The process environment. */
  class Environment {
    var vars: map<string, string>

    constructor(initial: map<string, string>)
      ensures vars == initial
    {
      vars := initial;
    }

    /**
     * `_load_env`: `file` is the text of `.env`, absent when the file does
     * not exist. `raised` is the ValueError of a refused setting, which
     * stops the loop with the earlier settings in place.
     */
    method LoadEnv(file: Option<string>) returns (raised: bool)
      modifies this
      ensures file.None? ==> vars == old(vars) && !raised
      ensures file.Some? ==> LoadState(vars, raised) == EnvAfter(LoadState(old(vars), false), SplitLines(file.value))
    {
      raised := false;
      if file.None? {
        return;
      }
      var lines := SplitLines(file.value);
      ghost var st0 := LoadState(vars, false);
      ghost var ls := Map(ClassifyLine, lines);
      var i := 0;
      while i < |lines|
        invariant 0 <= i <= |lines|
        invariant LoadState(vars, false) == Apply(st0, ls[..i])
      {
        ApplyStep(st0, ls, i);
        // the strip / skip / partition of one line is `ClassifyLine`
        match ClassifyLine(lines[i]) {
          case Ignored =>
          case Setting(k, v) =>
            if k !in vars {
              if Refused(k, v) {
                FailureEndsLoading(st0, ls, i);
                return true;
              }
              vars := vars[k := v];
            }
        }
        i := i + 1;
      }
      assert ls[..|lines|] == ls;
    }
  }

  // ----- seeding -----

  /** What `main` does once PostgreSQL answers and the table exists. */
  datatype Plan = Skip | Seed(truncate: bool)

  /**
   * With rows present and no `--force` nothing is inserted; the table is
   * truncated only for `--force` with rows present.
   */
  function SeedPlan(count: nat, force: bool): (p: Plan)
    ensures p.Skip? <==> count > 0 && !force
    ensures p.Seed? ==> (p.truncate <==> force && count > 0)
  {
    if count > 0 && !force then Skip
    else Seed(force && count > 0)
  }

  /** Whenever seeding goes ahead the table is empty before the insert. */
  lemma SeedStartsEmpty(count: nat, force: bool)
    requires SeedPlan(count, force).Seed?
    ensures count == 0 || SeedPlan(count, force).truncate
  {
  }

  datatype SeedOutcome = Unreachable | AlreadySeeded(count: nat) | Seeded(truncated: bool, inserted: int)

  /** The cohort_students table (absent before the first CREATE). */
  class Database {
    var table: Option<seq<DbTuple>>

    constructor(initial: Option<seq<DbTuple>>)
      ensures table == initial
    {
      table := initial;
    }
  }

  /** mock_cohort_data.csv in the project root. */
  class CsvFile {
    var content: Option<Frame>

    constructor(initial: Option<Frame>)
      ensures content == initial
    {
      content := initial;
    }
  }

  /**
   * `main`: wait for the database (`reachable`), create the table if it is
   * missing, then skip, or truncate and/or insert the cohort read from the
   * CSV or generated and saved.
   */
  method SeedMain(db: Database, csv: CsvFile, reachable: bool, force: bool, generated: Frame)
    returns (o: SeedOutcome)
    modifies db, csv
    ensures !reachable ==> o == Unreachable && db.table == old(db.table) && csv.content == old(csv.content)
    ensures reachable ==>
      var rows := if old(db.table).Some? then old(db.table).value else [];
      var df := if old(csv.content).Some? then old(csv.content).value else generated;
      match SeedPlan(|rows|, force)
      case Skip => o == AlreadySeeded(|rows|) && db.table == Some(rows) && csv.content == old(csv.content)
      case Seed(truncate) =>
        && o == Seeded(truncate, |df|)
        && db.table == Some(BulkInsert(df).0)
        && csv.content == Some(df)
  {
    if !reachable {
      return Unreachable;
    }
    if db.table.None? {
      db.table := Some([]);
    }
    var count := |db.table.value|;
    if count > 0 && !force {
      return AlreadySeeded(count);
    }
    var truncated := false;
    if force && count > 0 {
      db.table := Some([]);
      truncated := true;
    }
    var df: Frame;
    if csv.content.Some? {
      df := csv.content.value;
    } else {
      df := generated;
      csv.content := Some(df);
    }
    var (rows, inserted) := BulkInsert(df);
    assert db.table.value == [];
    db.table := Some(db.table.value + rows);
    assert db.table.value == rows;
    o := Seeded(truncated, inserted);
  }
}
