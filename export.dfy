/** Export file names: `fileName.replace('.csv', '')` followed by a suffix.
    A string pattern makes `replace` remove the FIRST ".csv", wherever it is,
    and only with that exact lower-case spelling. */
module Export {
  import opened Text

  const CsvExtension: String := ".csv"
  const JsonSuffix: String := "_export.json"
  const CsvSuffix: String := "_export.csv"

  /** The name without its first ".csv": unchanged exactly when there is none. */
  function BaseName(fileName: String): (r: String)
    ensures r == fileName <==> IndexOf(fileName, CsvExtension) == -1
    ensures |r| <= |fileName|
  {
    RemoveFirst(fileName, CsvExtension)
  }

  function JsonFileName(fileName: String): (r: String)
    ensures |r| >= |JsonSuffix| && r[|r| - |JsonSuffix|..] == JsonSuffix
  {
    BaseName(fileName) + JsonSuffix
  }

  function CsvFileName(fileName: String): (r: String)
    ensures |r| >= |CsvSuffix| && r[|r| - |CsvSuffix|..] == CsvSuffix
  {
    BaseName(fileName) + CsvSuffix
  }

  /** A name without ".csv" anywhere keeps its whole text. */
  lemma BaseNameWithoutExtension(fileName: String)
    requires !Includes(fileName, CsvExtension)
    ensures BaseName(fileName) == fileName
  {
  }

  /** For an ordinary `stem.csv` (no ".csv" inside the stem) the base name is
      the stem: ".csv" cannot overlap itself, so its first occurrence is the
      final one. */
  lemma {:induction false} BaseNameOfCsvFile(stem: String)
    requires !Includes(stem, CsvExtension)
    ensures BaseName(stem + CsvExtension) == stem
  {
    var s, n := stem + CsvExtension, |stem|;
    assert s[n..n + 4] == CsvExtension;
    forall i | 0 <= i < n ensures !OccursAt(s, CsvExtension, i) {
      if i + 4 <= n {
        assert s[i..i + 4] == stem[i..i + 4];
        assert !OccursAt(stem, CsvExtension, i);
      } else if i + 4 <= |s| {
        assert s[i..i + 4][n - i] == s[n] == '.';
        assert CsvExtension[n - i] != '.';
      }
    }
    var k := IndexOf(s, CsvExtension);
    assert OccursAt(s, CsvExtension, n);
    assert k == n;
    assert s[..n] == stem && s[n + 4..] == [];
  }

  /** Only the first ".csv" goes: "a.csv.b.csv" exports as "a.b.csv_export.json",
      not "a.csv.b_export.json". */
  lemma FirstOccurrenceIsRemoved()
    ensures BaseName("a.csv.b.csv") == "a.b.csv"
  {
    var s := "a.csv.b.csv";
    assert !OccursAt(s, CsvExtension, 0) by {
      assert s[0] != '.';
    }
    assert OccursAt(s, CsvExtension, 1) by {
      assert s[1..5] == CsvExtension;
    }
    assert IndexOf(s, CsvExtension) == 1;
    assert s[..1] == "a" && s[5..] == ".b.csv";
  }

  /** The match is case-sensitive: "REPORT.CSV" keeps its extension. */
  lemma UpperCaseExtensionIsKept()
    ensures BaseName("REPORT.CSV") == "REPORT.CSV"
  {
    var s := "REPORT.CSV";
    forall i ensures !OccursAt(s, CsvExtension, i) {
      if 0 <= i && i + 4 <= |s| {
        assert s[i..i + 4][1] == s[i + 1] != 'c';
      }
    }
  }
}
