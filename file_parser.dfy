/**
 * Text-level helpers of the academic file parser: grade extraction from a
 * line, grade-cell interpretation, header lookup, de-duplication, the plain
 * text parser and the dispatch on file type.  Regular-expression matches and
 * the PDF/DOCX/CSV/XLSX back ends are oracles (`Regexes`, `Extractors`).
 */
module FileParser {
  import opened Wrappers
  import opened PyNum
  import opened PyText
  import opened Seqs

  datatype ParsedGrade = ParsedGrade(
    courseName: Option<string>,
    courseCode: Option<string>,
    gradeLetter: Option<string>,
    score: Option<real>,
    maxScore: Option<real>,
    percentage: Option<real>,
    semester: Option<string>,
    sourceRow: Option<int>)

  function EmptyGrade(row: int): ParsedGrade {
    ParsedGrade(None, None, None, None, None, None, None, Some(row))
  }

  datatype SnippetKind = Heading | Comment

  datatype TextSnippet = TextSnippet(kind: SnippetKind, content: string)

  datatype ParseResult = ParseResult(
    rawText: string,
    grades: seq<ParsedGrade>,
    snippets: seq<TextSnippet>,
    error: Option<string>)

  /**
   * The regular expressions of the parser, as oracles:
   * `courseCode` is group 1 of a course-code search; `percentage` the float
   * of group 1 of a percentage search; `scoreFraction` both floats of a
   * "s / m" search; `gradeLetterSearch` / `gradeLetterMatch` group 1 of the
   * letter pattern found anywhere / at the start; `semester` group 0 of the
   * semester search; `removeCourseCodes` the substitution of course codes by
   * ""; `parseFloat` Python `float(raw)`, None when it raises ValueError.
   */
  datatype Regexes = Regexes(
    courseCode: string -> Option<string>,
    percentage: string -> Option<real>,
    scoreFraction: string -> Option<(real, real)>,
    gradeLetterSearch: string -> Option<string>,
    gradeLetterMatch: string -> Option<string>,
    semester: string -> Option<string>,
    removeCourseCodes: string -> string,
    parseFloat: string -> Option<real>)

  /** Python truthiness of an optional float / string field. */
  predicate TruthyNum(x: Option<real>) { x.Some? && x.value != 0.0 }
  predicate TruthyStr(x: Option<string>) { x.Some? && x.value != [] }

  function StripOpt(x: Option<string>): Option<string> {
    if x.Some? then Some(Strip(x.value)) else None
  }

  // ----- _normalise_percentage -----

  /** score / max_score as a percentage rounded to 2 decimals; score itself when max_score <= 0. */
  function NormalisePercentage(score: real, maxScore: real): (r: real)
    ensures maxScore > 0.0 ==> r * 100.0 == RoundHalfEven(score / maxScore * 100.0 * 100.0) as real
    ensures maxScore > 0.0 ==> Abs(r - score / maxScore * 100.0) <= 1.0 / 200.0
    ensures maxScore <= 0.0 ==> r == score
  {
    assert Pow10(2) == 100.0;
    if maxScore != 0.0 && maxScore > 0.0 then RoundTo(score / maxScore * 100.0, 2) else score
  }

  /** Rounding to 2 decimals keeps a value of [lo, hi] (whole numbers) inside it. */
  lemma {:induction false} RoundTo2InRange(x: real, lo: int, hi: int)
    requires lo as real <= x <= hi as real
    ensures lo as real <= RoundTo(x, 2) <= hi as real
  {
    assert Pow10(2) == 100.0;
    RoundHalfEvenMonotone(lo as real * 100.0, x * 100.0);
    RoundHalfEvenMonotone(x * 100.0, hi as real * 100.0);
    assert lo as real * 100.0 == (lo * 100) as real;
    assert hi as real * 100.0 == (hi * 100) as real;
    RoundHalfEvenOfInt(lo * 100);
    RoundHalfEvenOfInt(hi * 100);
  }

  /** A score between 0 and its positive maximum normalises into [0, 100]. */
  lemma NormalisedInRange(score: real, maxScore: real)
    requires maxScore > 0.0 && 0.0 <= score <= maxScore
    ensures 0.0 <= NormalisePercentage(score, maxScore) <= 100.0
  {
    assert score / maxScore <= 1.0;
    RoundTo2InRange(score / maxScore * 100.0, 0, 100);
  }

  // ----- _extract_grade_from_line -----

  /** Percentage, score and maximum found on a line. */
  datatype Measured = Measured(percentage: Option<real>, score: Option<real>, maxScore: Option<real>)

  function PercentStep(p: Option<real>): Measured {
    if p.Some? then Measured(p, p, Some(100.0)) else Measured(None, None, None)
  }

  /**
   * A percentage wins when it is truthy; otherwise a score fraction is used,
   * unless its denominator exceeds 200 (a year range such as 2023/2024).
   */
  function Measure(rx: Regexes, line: string): (m: Measured)
    ensures TruthyNum(rx.percentage(line)) ==> m == PercentStep(rx.percentage(line))
    ensures rx.scoreFraction(line).Some? && rx.scoreFraction(line).value.1 > 200.0
      ==> m == PercentStep(rx.percentage(line))
    ensures rx.scoreFraction(line).None? ==> m == PercentStep(rx.percentage(line))
    ensures !TruthyNum(rx.percentage(line)) && rx.scoreFraction(line).Some?
      && rx.scoreFraction(line).value.1 <= 200.0
      ==> m == Measured(Some(NormalisePercentage(rx.scoreFraction(line).value.0, rx.scoreFraction(line).value.1)),
                        Some(rx.scoreFraction(line).value.0), Some(rx.scoreFraction(line).value.1))
  {
    var step := PercentStep(rx.percentage(line));
    if TruthyNum(step.percentage) then step
    else
      var frac := rx.scoreFraction(line);
      if frac.Some? && frac.value.1 <= 200.0 then
        Measured(Some(NormalisePercentage(frac.value.0, frac.value.1)), Some(frac.value.0), Some(frac.value.1))
      else step
  }

  /** The text before the first ':', '-' or '|'. */
  function BeforeSeparator(s: string): (r: string)
    ensures |r| <= |s| && r == s[..|r|]
    ensures forall i :: 0 <= i < |r| ==> r[i] != ':' && r[i] != '-' && r[i] != '|'
    ensures |r| < |s| ==> s[|r|] in {':', '-', '|'}
  {
    if s == [] || s[0] in {':', '-', '|'} then [] else [s[0]] + BeforeSeparator(s[1..])
  }

  /** The characters of `s` that are not whitespace, in order. */
  function NonSpace(s: string): string {
    if s == [] then []
    else (if IsSpace(s[0]) then [] else [s[0]]) + NonSpace(s[1..])
  }

  /** `lstrip` removes only whitespace. */
  lemma {:induction false} NonSpaceStripLeft(s: string)
    ensures NonSpace(StripLeft(s)) == NonSpace(s)
  {
    if s != [] && IsSpace(s[0]) {
      NonSpaceStripLeft(s[1..]);
    }
  }

  /**
   * `re.sub(r'\s+', ' ', s)`: every run of whitespace replaced by one space.
   * The other characters are kept, in order.
   */
  function CollapseSpace(s: string): (r: string)
    ensures |r| <= |s|
    ensures r == [] <==> s == []
    ensures r != [] ==> (IsSpace(r[0]) <==> IsSpace(s[0]))
    ensures forall i :: 0 <= i < |r| && IsSpace(r[i]) ==> r[i] == ' '
    ensures forall i :: 0 <= i < |r| - 1 ==> !(IsSpace(r[i]) && IsSpace(r[i + 1]))
    ensures NonSpace(r) == NonSpace(s)
    decreases |s|
  {
    if s == [] then []
    else if IsSpace(s[0]) then
      var rest := CollapseSpace(StripLeft(s[1..]));
      NonSpaceStripLeft(s[1..]);
      assert ([' '] + rest)[1..] == rest;
      [' '] + rest
    else
      var rest := CollapseSpace(s[1..]);
      assert ([s[0]] + rest)[1..] == rest;
      [s[0]] + rest
  }

  /** The course-name heuristic applied to a stripped line. */
  function NamePart(rx: Regexes, line: string): string {
    CollapseSpace(Strip(rx.removeCourseCodes(Strip(BeforeSeparator(line)))))
  }

  /** The grade assembled from a stripped line before the usefulness test. */
  function Candidate(rx: Regexes, line: string, row: int): ParsedGrade {
    var m := Measure(rx, line);
    var name := NamePart(rx, line);
    ParsedGrade(
      if 3 <= |name| <= 120 then Some(name) else None,
      StripOpt(rx.courseCode(line)),
      rx.gradeLetterSearch(line),
      m.score, m.maxScore, m.percentage,
      StripOpt(rx.semester(line)),
      Some(row))
  }

  /** `any([percentage, score, grade_letter, course_code])`. */
  predicate HasUsefulData(g: ParsedGrade) {
    TruthyNum(g.percentage) || TruthyNum(g.score) || TruthyStr(g.gradeLetter) || TruthyStr(g.courseCode)
  }

  /** `_extract_grade_from_line(line, row_idx)`. */
  function GradeFromLine(rx: Regexes, raw: string, row: int): (r: Option<ParsedGrade>)
    ensures r.None? <==> |Strip(raw)| < 3 || !HasUsefulData(Candidate(rx, Strip(raw), row))
    ensures r.Some? ==> HasUsefulData(r.value) && r.value.sourceRow == Some(row)
    ensures r.Some? ==> r.value.courseName.None? || 3 <= |r.value.courseName.value| <= 120
    ensures r.Some? ==> r.value.percentage == Measure(rx, Strip(raw)).percentage
  {
    var line := Strip(raw);
    if |line| < 3 then None
    else
      var g := Candidate(rx, line, row);
      if HasUsefulData(g) then Some(g) else None
  }

  /** A line of fewer than three characters, once stripped, never yields a grade. */
  lemma ShortLineNoGrade(rx: Regexes, raw: string, row: int)
    requires |Strip(raw)| < 3
    ensures GradeFromLine(rx, raw, row).None?
  {
  }

  /**
   * A fraction with a denominator above 200 contributes nothing: with no
   * percentage on the line the candidate has no score or maximum.
   */
  lemma LargeDenominatorIgnored(rx: Regexes, line: string, row: int)
    requires rx.percentage(line).None?
    requires rx.scoreFraction(line).Some? && rx.scoreFraction(line).value.1 > 200.0
    ensures Candidate(rx, line, row).score.None? && Candidate(rx, line, row).maxScore.None?
    ensures Candidate(rx, line, row).percentage.None?
  {
  }

  // ----- _fill_grade_value -----

  predicate LetterCell(rx: Regexes, raw: string) {
    rx.gradeLetterMatch(raw).Some? && |raw| <= 3
  }

  /** A cell reaches the bare-number branch when no pattern applies. */
  predicate BareCell(rx: Regexes, raw: string) {
    raw != [] && !LetterCell(rx, raw) && rx.percentage(raw).None? && rx.scoreFraction(raw).None?
  }

  /** `_fill_grade_value(g, raw)`: interprets one grade cell. */
  method FillGradeValue(rx: Regexes, g: ParsedGrade, rawCell: string) returns (r: ParsedGrade)
    ensures r.courseName == g.courseName && r.courseCode == g.courseCode
    ensures r.semester == g.semester && r.sourceRow == g.sourceRow
    ensures Strip(rawCell) == [] ==> r == g
    ensures var raw := Strip(rawCell);
      raw != [] && LetterCell(rx, raw) ==> r == g.(gradeLetter := rx.gradeLetterMatch(raw))
    ensures var raw := Strip(rawCell);
      raw != [] && !LetterCell(rx, raw) && rx.percentage(raw).Some?
      ==> r == g.(percentage := rx.percentage(raw), score := rx.percentage(raw), maxScore := Some(100.0))
    ensures var raw := Strip(rawCell);
      raw != [] && !LetterCell(rx, raw) && rx.percentage(raw).None? && rx.scoreFraction(raw).Some?
      ==> var (s, m) := rx.scoreFraction(raw).value;
          r == if m <= 200.0 then g.(score := Some(s), maxScore := Some(m), percentage := Some(NormalisePercentage(s, m)))
               else g
    ensures var raw := Strip(rawCell);
      BareCell(rx, raw) && rx.parseFloat(raw).None? ==> r == g
    ensures var raw := Strip(rawCell);
      BareCell(rx, raw) && rx.parseFloat(raw).Some? && rx.parseFloat(raw).value <= 4.0
      ==> r == g.(percentage := Some(RoundTo(rx.parseFloat(raw).value / 4.0 * 100.0, 2)))
    ensures var raw := Strip(rawCell);
      BareCell(rx, raw) && rx.parseFloat(raw).Some? && 4.0 < rx.parseFloat(raw).value <= 100.0
      ==> r == g.(percentage := rx.parseFloat(raw), score := rx.parseFloat(raw), maxScore := Some(100.0))
    ensures var raw := Strip(rawCell);
      BareCell(rx, raw) && rx.parseFloat(raw).Some? && rx.parseFloat(raw).value > 100.0
      ==> r == g.(score := rx.parseFloat(raw))
  {
    r := g;
    var raw := Strip(rawCell);
    if raw == [] {
      return;
    }
    var gl := rx.gradeLetterMatch(raw);
    var pct := rx.percentage(raw);
    var frac := rx.scoreFraction(raw);
    if gl.Some? && |raw| <= 3 {
      r := r.(gradeLetter := gl);
    } else if pct.Some? {
      r := r.(percentage := pct);
      r := r.(score := r.percentage, maxScore := Some(100.0));
    } else if frac.Some? {
      var (s, m) := frac.value;
      if m <= 200.0 {
        r := r.(score := Some(s), maxScore := Some(m));
        r := r.(percentage := Some(NormalisePercentage(s, m)));
      }
    } else {
      var parsed := rx.parseFloat(raw);
      if parsed.Some? {
        var val := parsed.value;
        if val <= 4.0 {
          r := r.(percentage := Some(RoundTo(val / 4.0 * 100.0, 2)));
        } else if val <= 100.0 {
          r := r.(percentage := Some(val));
          r := r.(score := Some(val), maxScore := Some(100.0));
        } else {
          r := r.(score := Some(val));
        }
      }
    }
  }

  /** A GPA between 0 and 4 becomes a percentage between 0 and 100. */
  lemma GpaPercentageInRange(val: real)
    requires 0.0 <= val <= 4.0
    ensures 0.0 <= RoundTo(val / 4.0 * 100.0, 2) <= 100.0
  {
    RoundTo2InRange(val / 4.0 * 100.0, 0, 100);
  }

  // ----- _find_col -----

  /** Some keyword occurs as a substring of the header. */
  predicate HeaderMatches(h: string, keywords: seq<string>) {
    exists k :: 0 <= k < |keywords| && Contains(h, keywords[k])
  }

  /** `_find_col`: the first header containing a keyword. */
  method FindCol(headers: seq<string>, keywords: seq<string>) returns (r: Option<nat>)
    ensures r.Some? ==> r.value < |headers| && HeaderMatches(headers[r.value], keywords)
    ensures r.Some? ==> forall j :: 0 <= j < r.value ==> !HeaderMatches(headers[j], keywords)
    ensures r.None? <==> forall j :: 0 <= j < |headers| ==> !HeaderMatches(headers[j], keywords)
  {
    var i := 0;
    while i < |headers|
      invariant 0 <= i <= |headers|
      invariant forall j :: 0 <= j < i ==> !HeaderMatches(headers[j], keywords)
    {
      var h := headers[i];
      var hit := false;
      var k := 0;
      while k < |keywords|
        invariant 0 <= k <= |keywords|
        invariant hit <==> exists q :: 0 <= q < k && Contains(h, keywords[q])
      {
        if Contains(h, keywords[k]) {
          hit := true;
        }
        k := k + 1;
      }
      if hit {
        return Some(i);
      }
      i := i + 1;
    }
    return None;
  }

  // ----- _dedup_grades -----

  datatype GradeKey = GradeKey(
    courseName: Option<string>, courseCode: Option<string>,
    gradeLetter: Option<string>, percentage: Option<real>)

  function KeyOf(g: ParsedGrade): GradeKey {
    GradeKey(g.courseName, g.courseCode, g.gradeLetter, g.percentage)
  }

  function KeysOf(gs: seq<ParsedGrade>): set<GradeKey> {
    set i | 0 <= i < |gs| :: KeyOf(gs[i])
  }

  /** The first grade of each key, in input order. */
  function Dedup(gs: seq<ParsedGrade>): seq<ParsedGrade> {
    if gs == [] then []
    else
      var d := Dedup(gs[..|gs| - 1]);
      var g := gs[|gs| - 1];
      if KeyOf(g) in KeysOf(d) then d else d + [g]
  }

  /** `_dedup_grades`: a `seen` set of keys and an `out` list. */
  method DedupGrades(grades: seq<ParsedGrade>) returns (out: seq<ParsedGrade>)
    ensures out == Dedup(grades)
  {
    var seen: set<GradeKey> := {};
    out := [];
    var i := 0;
    while i < |grades|
      invariant 0 <= i <= |grades|
      invariant out == Dedup(grades[..i])
      invariant seen == KeysOf(out)
    {
      var g := grades[i];
      assert grades[..i + 1][..i] == grades[..i];
      var key := KeyOf(g);
      if key !in seen {
        KeysOfAppend(out, g);
        seen := seen + {key};
        out := out + [g];
      }
      i := i + 1;
    }
    assert grades[..|grades|] == grades;
  }

  lemma KeysOfAppend(gs: seq<ParsedGrade>, g: ParsedGrade)
    ensures KeysOf(gs + [g]) == KeysOf(gs) + {KeyOf(g)}
  {
    var t := gs + [g];
    forall x | x in KeysOf(t) ensures x in KeysOf(gs) + {KeyOf(g)} {
      var i :| 0 <= i < |t| && KeyOf(t[i]) == x;
      if i < |gs| {
        assert t[i] == gs[i];
      }
    }
    forall x | x in KeysOf(gs) ensures x in KeysOf(t) {
      var i :| 0 <= i < |gs| && KeyOf(gs[i]) == x;
      assert t[i] == gs[i];
    }
    assert t[|gs|] == g;
  }

  lemma KeysOfPrefix(gs: seq<ParsedGrade>)
    requires gs != []
    ensures KeysOf(gs) == KeysOf(gs[..|gs| - 1]) + {KeyOf(gs[|gs| - 1])}
  {
    assert gs == gs[..|gs| - 1] + [gs[|gs| - 1]];
    KeysOfAppend(gs[..|gs| - 1], gs[|gs| - 1]);
  }

  predicate DistinctKeys(gs: seq<ParsedGrade>) {
    forall i, j :: 0 <= i < j < |gs| ==> KeyOf(gs[i]) != KeyOf(gs[j])
  }

  /** No two grades kept share a key, and exactly the input's keys are kept. */
  lemma {:induction false} DedupKeys(gs: seq<ParsedGrade>)
    ensures DistinctKeys(Dedup(gs))
    ensures KeysOf(Dedup(gs)) == KeysOf(gs)
  {
    if gs != [] {
      var init := gs[..|gs| - 1];
      var g := gs[|gs| - 1];
      DedupKeys(init);
      KeysOfPrefix(gs);
      var d := Dedup(init);
      if KeyOf(g) !in KeysOf(d) {
        KeysOfAppend(d, g);
        var t := d + [g];
        forall i, j | 0 <= i < j < |t| ensures KeyOf(t[i]) != KeyOf(t[j]) {
          if j == |d| {
            assert KeyOf(t[i]) == KeyOf(d[i]);
          } else {
            assert t[i] == d[i] && t[j] == d[j];
          }
        }
      }
    }
  }

  /** `a` is obtained from `b` by deleting elements (order preserved). */
  predicate IsSubsequence<T(==)>(a: seq<T>, b: seq<T>)
    decreases |b|
  {
    if b == [] then a == []
    else
      || IsSubsequence(a, b[..|b| - 1])
      || (a != [] && a[|a| - 1] == b[|b| - 1] && IsSubsequence(a[..|a| - 1], b[..|b| - 1]))
  }

  /** De-duplication only drops grades: it keeps the input's order. */
  lemma {:induction false} DedupSubsequence(gs: seq<ParsedGrade>)
    ensures IsSubsequence(Dedup(gs), gs)
  {
    if gs != [] {
      var init := gs[..|gs| - 1];
      DedupSubsequence(init);
      var d := Dedup(init);
      if KeyOf(gs[|gs| - 1]) !in KeysOf(d) {
        assert (d + [gs[|gs| - 1]])[..|d|] == d;
      }
    }
  }

  /** A grade whose key has not occurred earlier in the input. */
  predicate FirstOccurrence(gs: seq<ParsedGrade>, i: int)
    requires 0 <= i < |gs|
  {
    forall j :: 0 <= j < i ==> KeyOf(gs[j]) != KeyOf(gs[i])
  }

  /** The first grade of each key is the one kept. */
  lemma {:induction false} DedupKeepsFirst(gs: seq<ParsedGrade>, i: int)
    requires 0 <= i < |gs| && FirstOccurrence(gs, i)
    ensures gs[i] in Dedup(gs)
  {
    var init := gs[..|gs| - 1];
    var d := Dedup(init);
    if i == |gs| - 1 {
      DedupKeys(init);
      assert KeyOf(gs[i]) !in KeysOf(init) by {
        forall j | 0 <= j < |init| ensures KeyOf(init[j]) != KeyOf(gs[i]) {
          assert init[j] == gs[j];
        }
      }
    } else {
      assert init[i] == gs[i];
      assert FirstOccurrence(init, i) by {
        forall j | 0 <= j < i ensures KeyOf(init[j]) != KeyOf(init[i]) {
          assert init[j] == gs[j];
        }
      }
      DedupKeepsFirst(init, i);
    }
  }

  /** Grades with distinct keys are left as they are. */
  lemma {:induction false} DedupOfDistinct(gs: seq<ParsedGrade>)
    requires DistinctKeys(gs)
    ensures Dedup(gs) == gs
  {
    if gs != [] {
      var init := gs[..|gs| - 1];
      var g := gs[|gs| - 1];
      assert DistinctKeys(init) by {
        forall i, j | 0 <= i < j < |init| ensures KeyOf(init[i]) != KeyOf(init[j]) {
          assert init[i] == gs[i] && init[j] == gs[j];
        }
      }
      DedupOfDistinct(init);
      assert KeyOf(g) !in KeysOf(init) by {
        forall j | 0 <= j < |init| ensures KeyOf(init[j]) != KeyOf(g) {
          assert init[j] == gs[j];
        }
      }
      assert init + [g] == gs;
    }
  }

  /** De-duplicating twice is the same as once. */
  lemma DedupIdempotent(gs: seq<ParsedGrade>)
    ensures Dedup(Dedup(gs)) == Dedup(gs)
  {
    DedupKeys(gs);
    DedupOfDistinct(Dedup(gs));
  }

  // ----- _parse_txt -----

  /** The heading heuristic on a stripped line. */
  predicate IsHeadingLine(stripped: string) {
    |stripped| < 80 && (IsUpper(stripped) || EndsWith(stripped, ":"))
  }

  function Indexed(lines: seq<string>): (ps: seq<(int, string)>)
    ensures |ps| == |lines|
    ensures forall i :: 0 <= i < |lines| ==> ps[i] == (i, lines[i])
  {
    seq(|lines|, i requires 0 <= i < |lines| => (i, lines[i]))
  }

  /** The grade read from a numbered line, if the line is classified as one. */
  function GradeOf(rx: Regexes, p: (int, string)): Option<ParsedGrade> {
    var stripped := Strip(p.1);
    if stripped == [] || IsHeadingLine(stripped) then None
    else GradeFromLine(rx, stripped, p.0)
  }

  /** The snippet made from a numbered line, if any. */
  function SnippetOf(rx: Regexes, p: (int, string)): Option<TextSnippet> {
    var stripped := Strip(p.1);
    if stripped == [] then None
    else if IsHeadingLine(stripped) then Some(TextSnippet(Heading, stripped))
    else if GradeFromLine(rx, stripped, p.0).Some? then None
    else if |stripped| > 20 then Some(TextSnippet(Comment, stripped))
    else None
  }

  function TxtGrades(rx: Regexes, ps: seq<(int, string)>): seq<ParsedGrade> {
    FilterMap(p => GradeOf(rx, p), ps)
  }

  function TxtSnippets(rx: Regexes, ps: seq<(int, string)>): seq<TextSnippet> {
    FilterMap(p => SnippetOf(rx, p), ps)
  }

  function TxtResult(rx: Regexes, text: string): ParseResult {
    var ps := Indexed(SplitLines(text));
    ParseResult(text, TxtGrades(rx, ps), Take(TxtSnippets(rx, ps), 200), None)
  }

  /** One more numbered line extends the grades and snippets by its own. */
  lemma TxtStep(rx: Regexes, ps: seq<(int, string)>, i: nat)
    requires i < |ps|
    ensures TxtGrades(rx, ps[..i + 1]) == TxtGrades(rx, ps[..i])
      + (if GradeOf(rx, ps[i]).Some? then [GradeOf(rx, ps[i]).value] else [])
    ensures TxtSnippets(rx, ps[..i + 1]) == TxtSnippets(rx, ps[..i])
      + (if SnippetOf(rx, ps[i]).Some? then [SnippetOf(rx, ps[i]).value] else [])
  {
    assert ps[..i + 1][..i] == ps[..i];
  }

  /** `_parse_txt` over the decoded text. */
  method ParseTxt(rx: Regexes, text: string) returns (r: ParseResult)
    ensures r == TxtResult(rx, text)
  {
    var lines := SplitLines(text);
    ghost var ps := Indexed(lines);
    var snippets: seq<TextSnippet> := [];
    var grades: seq<ParsedGrade> := [];
    var i := 0;
    while i < |lines|
      invariant 0 <= i <= |lines|
      invariant grades == TxtGrades(rx, ps[..i])
      invariant snippets == TxtSnippets(rx, ps[..i])
    {
      TxtStep(rx, ps, i);
      assert ps[i] == (i, lines[i]);
      var stripped := Strip(lines[i]);
      if stripped == [] {
        // a blank line gives nothing
      } else if |stripped| < 80 && (IsUpper(stripped) || EndsWith(stripped, ":")) {
        snippets := snippets + [TextSnippet(Heading, stripped)];
      } else {
        var g := GradeFromLine(rx, stripped, i);
        if g.Some? {
          grades := grades + [g.value];
        } else if |stripped| > 20 {
          snippets := snippets + [TextSnippet(Comment, stripped)];
        }
      }
      i := i + 1;
    }
    assert ps[..|lines|] == ps;
    r := ParseResult(text, grades, Take(snippets, 200), None);
  }

  /**
   * Line classification: blank lines give nothing; a heading is a short
   * upper-case or colon-terminated line; a comment is a longer line that is
   * neither a heading nor a grade; no line gives both a grade and a snippet.
   */
  lemma LineClassification(rx: Regexes, p: (int, string))
    ensures Strip(p.1) == [] ==> GradeOf(rx, p).None? && SnippetOf(rx, p).None?
    ensures !(GradeOf(rx, p).Some? && SnippetOf(rx, p).Some?)
    ensures (SnippetOf(rx, p).Some? && SnippetOf(rx, p).value.kind == Heading)
      <==> Strip(p.1) != [] && IsHeadingLine(Strip(p.1))
    ensures SnippetOf(rx, p).Some? ==> SnippetOf(rx, p).value.content == Strip(p.1)
    ensures SnippetOf(rx, p).Some? && SnippetOf(rx, p).value.kind == Comment
      ==> |Strip(p.1)| > 20 && !IsHeadingLine(Strip(p.1)) && GradeFromLine(rx, Strip(p.1), p.0).None?
    ensures GradeOf(rx, p).Some? ==> GradeOf(rx, p).value.sourceRow == Some(p.0)
  {
  }

  /**
   * The text parser keeps at most 200 snippets, every one a non-blank
   * heading of fewer than 80 characters or a comment of more than 20.
   */
  lemma {:induction false} TxtSnippetsShape(rx: Regexes, text: string)
    ensures |TxtResult(rx, text).snippets| <= 200
    ensures forall k :: 0 <= k < |TxtResult(rx, text).snippets| ==>
      var sn := TxtResult(rx, text).snippets[k];
      (sn.kind == Heading && sn.content != [] && IsHeadingLine(sn.content))
      || (sn.kind == Comment && |sn.content| > 20)
  {
    var ps := Indexed(SplitLines(text));
    var f := p => SnippetOf(rx, p);
    var all := TxtSnippets(rx, ps);
    FilterMapFrom(f, ps);
    var out := TxtResult(rx, text).snippets;
    forall k | 0 <= k < |out|
      ensures (out[k].kind == Heading && out[k].content != [] && IsHeadingLine(out[k].content))
        || (out[k].kind == Comment && |out[k].content| > 20)
    {
      assert out[k] == all[k];
      var i :| 0 <= i < |ps| && f(ps[i]) == Some(all[k]);
      LineClassification(rx, ps[i]);
    }
  }

  // ----- parse_file -----

  /** The format back ends that are not modelled, and the UTF-8 decoding. */
  datatype Extractors = Extractors(
    pdf: seq<bv8> -> ParseResult,
    docx: seq<bv8> -> ParseResult,
    csv: seq<bv8> -> ParseResult,
    xlsx: seq<bv8> -> ParseResult,
    decodeUtf8: seq<bv8> -> string)

  /** `parse_file`: dispatch on the lower-cased file type. */
  function ParseFile(ex: Extractors, rx: Regexes, fileType: string, content: seq<bv8>): (r: ParseResult)
    ensures Lower(fileType) !in {"pdf", "doc", "docx", "csv", "xlsx", "xls", "txt"}
      ==> r == ParseResult([], [], [], None)
    ensures Lower(fileType) == "pdf" ==> r == ex.pdf(content)
    ensures Lower(fileType) in {"doc", "docx"} ==> r == ex.docx(content)
    ensures Lower(fileType) == "csv" ==> r == ex.csv(content)
    ensures Lower(fileType) in {"xlsx", "xls"} ==> r == ex.xlsx(content)
    ensures Lower(fileType) == "txt" ==> r == TxtResult(rx, ex.decodeUtf8(content))
  {
    var ft := Lower(fileType);
    if ft == "pdf" then ex.pdf(content)
    else if ft in {"doc", "docx"} then ex.docx(content)
    else if ft == "csv" then ex.csv(content)
    else if ft in {"xlsx", "xls"} then ex.xlsx(content)
    else if ft == "txt" then TxtResult(rx, ex.decodeUtf8(content))
    else ParseResult([], [], [], None)
  }

  /** The dispatch ignores letter case: "TXT" and "txt" are parsed alike. */
  lemma ParseFileIgnoresCase(ex: Extractors, rx: Regexes, a: string, b: string, content: seq<bv8>)
    requires Lower(a) == Lower(b)
    ensures ParseFile(ex, rx, a, content) == ParseFile(ex, rx, b, content)
  {
  }

  /** Upper-case type names dispatch like their lower-case form. */
  lemma ParseFileUpperCase(ex: Extractors, rx: Regexes, content: seq<bv8>)
    ensures ParseFile(ex, rx, "TXT", content) == TxtResult(rx, ex.decodeUtf8(content))
    ensures ParseFile(ex, rx, "Pdf", content) == ex.pdf(content)
    ensures ParseFile(ex, rx, "PNG", content) == ParseResult([], [], [], None)
  {
    assert Lower("TXT") == "txt";
    assert Lower("Pdf") == "pdf";
    assert Lower("PNG") == "png";
  }
}
