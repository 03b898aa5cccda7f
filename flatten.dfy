/** The projection of one nested candidate record onto one flat CSV row
    (the per-candidate body of BizreachScraper.save_data_to_csv). */
module Flatten {
  import opened Wrappers
  import opened Candidate

  /** One CSV row: column name to cell text. */
  type Row = map<string, string>

  /** At most this many career entries become columns. */
  const CareerColumnLimit: nat := 3
  const SkillSeparator: string := ", "

  function Min(a: nat, b: nat): nat { if a <= b then a else b }

  /** Python's sep.join(parts). */
  function Join(parts: seq<string>, sep: string): string
    decreases |parts|
  {
    if |parts| == 0 then ""
    else if |parts| == 1 then parts[0]
    else parts[0] + sep + Join(parts[1..], sep)
  }

  function TotalLength(parts: seq<string>): nat
    decreases |parts|
  {
    if parts == [] then 0 else |parts[0]| + TotalLength(parts[1..])
  }

  /** The length of the joined text: every part plus one separator between
      each adjacent pair. */
  lemma {:induction false} JoinLength(parts: seq<string>, sep: string)
    requires parts != []
    ensures |Join(parts, sep)| == TotalLength(parts) + |sep| * (|parts| - 1)
    decreases |parts|
  {
    if |parts| == 1 {
      assert TotalLength(parts[1..]) == 0;
    } else {
      JoinLength(parts[1..], sep);
    }
  }

  /** Where part i sits in the joined text: after the parts before it and
      one separator per part before it. */
  function JoinOffset(parts: seq<string>, sep: string, i: nat): nat
    requires i <= |parts|
  {
    TotalLength(parts[..i]) + |sep| * i
  }

  /** text holds part at offset o, followed by sep when `more` holds. */
  predicate PlacedAt(text: string, o: nat, part: string, sep: string, more: bool) {
    && o + |part| <= |text|
    && text[o..o + |part|] == part
    && (more ==> o + |part| + |sep| <= |text| && text[o + |part|..o + |part| + |sep|] == sep)
  }

  /** Part i of the joined text is parts[i], and a separator follows it
      unless it is the last; with JoinLength this fixes the whole text. */
  lemma {:induction false} JoinPlacesParts(parts: seq<string>, sep: string, i: nat)
    requires i < |parts|
    ensures PlacedAt(Join(parts, sep), JoinOffset(parts, sep, i), parts[i], sep, i + 1 < |parts|)
    decreases i
  {
    if i == 0 {
      assert parts[..0] == [];
      JoinPlacesFirst(parts, sep);
    } else {
      var tail := parts[1..];
      JoinPlacesParts(tail, sep, i - 1);
      JoinOffsetShift(parts, sep, i);
      assert Join(parts, sep) == (parts[0] + sep) + Join(tail, sep);
      PlacedAfterPrefix(parts[0] + sep, Join(tail, sep), JoinOffset(tail, sep, i - 1), parts[i], sep, i + 1 < |parts|);
    }
  }

  lemma JoinPlacesFirst(parts: seq<string>, sep: string)
    requires parts != []
    ensures PlacedAt(Join(parts, sep), 0, parts[0], sep, 1 < |parts|)
  {
    if |parts| > 1 {
      var j := Join(parts, sep);
      var n := |parts[0]|;
      assert j == parts[0] + sep + Join(parts[1..], sep);
      assert j[..n] == parts[0];
      assert j[n..n + |sep|] == sep;
    }
  }

  /** A placement in b is one in a + b, shifted by |a|. */
  lemma PlacedAfterPrefix(a: string, b: string, o: nat, part: string, sep: string, more: bool)
    requires PlacedAt(b, o, part, sep, more)
    ensures PlacedAt(a + b, |a| + o, part, sep, more)
  {
    assert (a + b)[|a| + o..|a| + o + |part|] == b[o..o + |part|];
    if more {
      assert (a + b)[|a| + o + |part|..|a| + o + |part| + |sep|] == b[o + |part|..o + |part| + |sep|];
    }
  }

  /** Offsets in the parts after the first are shifted by the first part
      and one separator. */
  lemma JoinOffsetShift(parts: seq<string>, sep: string, i: nat)
    requires 1 <= i <= |parts|
    ensures JoinOffset(parts, sep, i) == |parts[0] + sep| + JoinOffset(parts[1..], sep, i - 1)
  {
    assert parts[..i][1..] == parts[1..][..i - 1];
  }

  /** Appending a part appends a separator and the part. */
  lemma {:induction false} JoinSnoc(parts: seq<string>, part: string, sep: string)
    requires parts != []
    ensures Join(parts + [part], sep) == Join(parts, sep) + sep + part
    decreases |parts|
  {
    if |parts| == 1 {
      assert (parts + [part])[1..] == [part];
    } else {
      assert (parts + [part])[1..] == parts[1..] + [part];
      JoinSnoc(parts[1..], part, sep);
    }
  }

  /** The decimal text of a column number 1..9, as f"{i+1}" renders it. */
  function ColumnNumber(k: nat): string
    requires 1 <= k <= 9
  {
    [('0' as int + k) as char]
  }

  function CompanyKey(k: nat): string requires 1 <= k <= 9 { "company_" + ColumnNumber(k) }
  function PeriodKey(k: nat): string requires 1 <= k <= 9 { "period_" + ColumnNumber(k) }
  function PositionKey(k: nat): string requires 1 <= k <= 9 { "position_" + ColumnNumber(k) }

  /** The three families of numbered keys differ in length, and within a
      family the number is the last character. */
  lemma NumberedKeyShape(j: nat)
    requires 1 <= j <= 9
    ensures |CompanyKey(j)| == 9 && CompanyKey(j)[8] == ColumnNumber(j)[0] && CompanyKey(j)[0] == 'c'
    ensures |PeriodKey(j)| == 8 && PeriodKey(j)[7] == ColumnNumber(j)[0] && PeriodKey(j)[0] == 'p'
    ensures |PositionKey(j)| == 10 && PositionKey(j)[9] == ColumnNumber(j)[0] && PositionKey(j)[0] == 'p'
  {
  }

  /** Numbered keys are pairwise distinct. */
  lemma NumberedKeysDistinct(j: nat, k: nat)
    requires 1 <= j <= 9 && 1 <= k <= 9
    ensures CompanyKey(j) != PeriodKey(k) && CompanyKey(j) != PositionKey(k) && PeriodKey(j) != PositionKey(k)
    ensures j != k ==> CompanyKey(j) != CompanyKey(k) && PeriodKey(j) != PeriodKey(k) && PositionKey(j) != PositionKey(k)
  {
    NumberedKeyShape(j);
    NumberedKeyShape(k);
    assert ColumnNumber(j)[0] as int == '0' as int + j;
    assert ColumnNumber(k)[0] as int == '0' as int + k;
  }

  /** The numbered column names of the first k career entries. */
  function CareerKeys(k: nat): set<string>
    requires k <= CareerColumnLimit
  {
    if k == 0 then {} else CareerKeys(k - 1) + {CompanyKey(k), PeriodKey(k), PositionKey(k)}
  }

  const ScalarKeys: set<string> := {"name", "age", "url", "scraped_at"}
  const EducationKeys: set<string> := {"school", "edu_period", "degree"}

  /** name, age, url and scraped_at, each "" when the record lacks it. */
  function ScalarColumns(c: Record): Row {
    map["name" := c.name.GetOr(""), "age" := c.age.GetOr(""),
        "url" := c.url.GetOr(""), "scraped_at" := c.scrapedAt.GetOr("")]
  }

  /** The row after the loop over range(k) has written entries 1..k. */
  function CareerColumns(row: Row, history: seq<CareerEntry>, k: nat): Row
    requires k <= |history| && k <= CareerColumnLimit
  {
    if k == 0 then row
    else CareerColumns(row, history, k - 1)
           [CompanyKey(k) := history[k - 1].company]
           [PeriodKey(k) := history[k - 1].period]
           [PositionKey(k) := history[k - 1].position]
  }

  /** school, edu_period and degree from the first education entry, if any. */
  function EducationColumns(row: Row, education: seq<EducationEntry>): Row {
    if education == [] then row
    else row["school" := education[0].school]
            ["edu_period" := education[0].period]
            ["degree" := education[0].degree]
  }

  function CareerOf(c: Record): seq<CareerEntry> { c.careerHistory.GetOr([]) }
  function SkillsOf(c: Record): seq<string> { c.skills.GetOr([]) }
  function EducationOf(c: Record): seq<EducationEntry> { c.education.GetOr([]) }

  /** The number of career entries that become columns. */
  function CareerColumnCount(c: Record): nat { Min(CareerColumnLimit, |CareerOf(c)|) }

  /** The flat row save_data_to_csv builds for one record. */
  function FlatRow(c: Record): Row {
    var row := CareerColumns(ScalarColumns(c), CareerOf(c), CareerColumnCount(c));
    EducationColumns(row["skills" := Join(SkillsOf(c), SkillSeparator)], EducationOf(c))
  }

  /** Every numbered career column name starts with "c" or "p". */
  lemma {:induction false} CareerKeysInitial(k: nat, key: string)
    requires k <= CareerColumnLimit && key in CareerKeys(k)
    ensures |key| > 1 && (key[0] == 'c' || key[0] == 'p')
    decreases k
  {
    if k > 0 {
      NumberedKeyShape(k);
      if key !in {CompanyKey(k), PeriodKey(k), PositionKey(k)} {
        CareerKeysInitial(k - 1, key);
      }
    }
  }

  /** The career loop adds exactly the numbered keys and touches nothing else. */
  lemma {:induction false} CareerColumnsKeys(row: Row, history: seq<CareerEntry>, k: nat)
    requires k <= |history| && k <= CareerColumnLimit
    ensures CareerColumns(row, history, k).Keys == row.Keys + CareerKeys(k)
    ensures forall key :: key in row && key !in CareerKeys(k) ==> CareerColumns(row, history, k)[key] == row[key]
    decreases k
  {
    if k > 0 {
      CareerColumnsKeys(row, history, k - 1);
    }
  }

  /** Column j of the career loop holds entry j - 1, for every j written. */
  lemma {:induction false} CareerColumnsValues(row: Row, history: seq<CareerEntry>, k: nat, j: nat)
    requires k <= |history| && k <= CareerColumnLimit && 1 <= j <= k
    ensures CompanyKey(j) in CareerColumns(row, history, k) && PeriodKey(j) in CareerColumns(row, history, k)
    ensures PositionKey(j) in CareerColumns(row, history, k)
    ensures CareerColumns(row, history, k)[CompanyKey(j)] == history[j - 1].company
    ensures CareerColumns(row, history, k)[PeriodKey(j)] == history[j - 1].period
    ensures CareerColumns(row, history, k)[PositionKey(j)] == history[j - 1].position
    decreases k
  {
    if j < k {
      CareerColumnsValues(row, history, k - 1, j);
      NumberedKeysDistinct(j, k);
      NumberedKeysDistinct(k, j);
    } else {
      NumberedKeysDistinct(k, k);
    }
  }

  /** The columns of a flat row: the four scalars, skills, one numbered triple
      per career entry up to three, and the education triple iff there is an
      education entry. */
  lemma FlatRowKeys(c: Record)
    ensures FlatRow(c).Keys ==
      ScalarKeys + {"skills"} + CareerKeys(CareerColumnCount(c))
      + (if EducationOf(c) != [] then EducationKeys else {})
  {
    CareerColumnsKeys(ScalarColumns(c), CareerOf(c), CareerColumnCount(c));
  }

  /** No numbered career column is named like a scalar, skills or
      education column. */
  lemma NumberedKeysUnnamed(j: nat)
    requires 1 <= j <= 9
    ensures CompanyKey(j) !in ScalarKeys + {"skills"} + EducationKeys
    ensures PeriodKey(j) !in ScalarKeys + {"skills"} + EducationKeys
    ensures PositionKey(j) !in ScalarKeys + {"skills"} + EducationKeys
  {
    NumberedKeyShape(j);
  }

  /** Any column other than skills and the education columns is as the
      career loop left it. */
  lemma FlatRowOtherColumns(c: Record, key: string)
    requires key != "skills" && key !in EducationKeys
    ensures var row := CareerColumns(ScalarColumns(c), CareerOf(c), CareerColumnCount(c));
      && (key in FlatRow(c) <==> key in row)
      && (key in row ==> FlatRow(c)[key] == row[key])
  {
  }

  /** A scalar column holds what ScalarColumns put there. */
  lemma FlatRowScalar(c: Record, key: string)
    requires key in ScalarKeys
    ensures key in FlatRow(c) && FlatRow(c)[key] == ScalarColumns(c)[key]
  {
    var k := CareerColumnCount(c);
    CareerColumnsKeys(ScalarColumns(c), CareerOf(c), k);
    if key in CareerKeys(k) { CareerKeysInitial(k, key); }
    FlatRowOtherColumns(c, key);
  }

  /** Missing name, age, url and scraped_at become "". */
  lemma FlatRowScalars(c: Record)
    ensures ScalarKeys <= FlatRow(c).Keys
    ensures FlatRow(c)["name"] == c.name.GetOr("")
    ensures FlatRow(c)["age"] == c.age.GetOr("")
    ensures FlatRow(c)["url"] == c.url.GetOr("")
    ensures FlatRow(c)["scraped_at"] == c.scrapedAt.GetOr("")
  {
    FlatRowScalar(c, "name");
    FlatRowScalar(c, "age");
    FlatRowScalar(c, "url");
    FlatRowScalar(c, "scraped_at");
  }

  /** skills is the ", "-join of the skill list ("" when there is none). */
  lemma FlatRowSkills(c: Record)
    ensures "skills" in FlatRow(c)
    ensures FlatRow(c)["skills"] == Join(SkillsOf(c), SkillSeparator)
  {
  }

  /** The education columns come from the first education entry. */
  lemma FlatRowEducation(c: Record)
    ensures EducationOf(c) != [] ==>
      && EducationKeys <= FlatRow(c).Keys
      && FlatRow(c)["school"] == EducationOf(c)[0].school
      && FlatRow(c)["edu_period"] == EducationOf(c)[0].period
      && FlatRow(c)["degree"] == EducationOf(c)[0].degree
  {
  }

  /** A record with n career entries gets company_j/period_j/position_j for
      exactly j = 1..min(3, n), holding entry j - 1. */
  lemma FlatRowCareer(c: Record, j: nat)
    requires 1 <= j <= 9
    ensures CompanyKey(j) in FlatRow(c) <==> j <= CareerColumnCount(c)
    ensures PeriodKey(j) in FlatRow(c) <==> j <= CareerColumnCount(c)
    ensures PositionKey(j) in FlatRow(c) <==> j <= CareerColumnCount(c)
    ensures j <= CareerColumnCount(c) ==>
      FlatRow(c)[CompanyKey(j)] == CareerOf(c)[j - 1].company &&
      FlatRow(c)[PeriodKey(j)] == CareerOf(c)[j - 1].period &&
      FlatRow(c)[PositionKey(j)] == CareerOf(c)[j - 1].position
  {
    var k := CareerColumnCount(c);
    var base := ScalarColumns(c);
    NumberedKeysUnnamed(j);
    FlatRowOtherColumns(c, CompanyKey(j));
    FlatRowOtherColumns(c, PeriodKey(j));
    FlatRowOtherColumns(c, PositionKey(j));
    CareerColumnsKeys(base, CareerOf(c), k);
    CareerKeysMembers(k, j);
    if j <= k {
      CareerColumnsValues(base, CareerOf(c), k, j);
    }
  }

  /** CareerKeys(k) holds the keys numbered 1..k and no other numbered key. */
  lemma {:induction false} CareerKeysMembers(k: nat, j: nat)
    requires k <= CareerColumnLimit && 1 <= j <= 9
    ensures CompanyKey(j) in CareerKeys(k) <==> j <= k
    ensures PeriodKey(j) in CareerKeys(k) <==> j <= k
    ensures PositionKey(j) in CareerKeys(k) <==> j <= k
    decreases k
  {
    if k > 0 {
      CareerKeysMembers(k - 1, j);
      NumberedKeysDistinct(j, k);
      NumberedKeysDistinct(k, j);
    }
  }

  /** The per-candidate loop body: write the scalars, then the numbered career
      columns one entry at a time, then skills and education. */
  method FlattenCandidate(c: Record) returns (row: Row)
    ensures row == FlatRow(c)
  {
    row := map["name" := c.name.GetOr(""), "age" := c.age.GetOr(""),
               "url" := c.url.GetOr(""), "scraped_at" := c.scrapedAt.GetOr("")];
    var history := c.careerHistory.GetOr([]);
    var count := Min(CareerColumnLimit, |history|);
    var i := 0;
    while i < count
      invariant 0 <= i <= count
      invariant row == CareerColumns(ScalarColumns(c), history, i)
    {
      row := row[CompanyKey(i + 1) := history[i].company];
      row := row[PeriodKey(i + 1) := history[i].period];
      row := row[PositionKey(i + 1) := history[i].position];
      i := i + 1;
    }
    row := row["skills" := Join(c.skills.GetOr([]), SkillSeparator)];
    var education := c.education.GetOr([]);
    if education != [] {
      row := row["school" := education[0].school];
      row := row["edu_period" := education[0].period];
      row := row["degree" := education[0].degree];
    }
  }
}
