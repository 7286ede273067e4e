/**
 * The output file name of the export, derived from the `file_path` option with
 * Python's `str.split`: the first-stage name cuts the path at its first ".csv" and
 * appends "_full_data.csv"; the second-stage name then splits that name at its
 * dots and keeps only the first two pieces around "_2nd_stage.".
 */
module FileNames {
  import opened Strings

  const CsvExtension: string := ".csv"
  const FirstStageSuffix: string := "_full_data.csv"
  const SecondStageInfix: string := "_2nd_stage."

  /** The name carries the ".csv" extension. */
  predicate EndsWithCsv(name: string)
  {
    |name| >= |CsvExtension| && name[|name| - |CsvExtension|..] == CsvExtension
  }

  /** The part of the path before its first ".csv" (all of it when there is none). */
  function Stem(path: string): (stem: string)
    ensures stem <= path
    ensures Free(stem, CsvExtension)
    ensures stem == path || OccursAt(path, CsvExtension, |stem|)
  {
    var parts := Split(path, CsvExtension);
    if |parts| == 1 then parts[0]
    else
      assert path == parts[0] + CsvExtension + Join(parts[1..], CsvExtension);
      parts[0]
  }

  /** The first-stage output name: the stem followed by "_full_data.csv". */
  function FirstStageName(path: string): (name: string)
    ensures |name| >= |FirstStageSuffix|
    ensures name[|name| - |FirstStageSuffix|..] == FirstStageSuffix
    ensures name[..|name| - |FirstStageSuffix|] == Stem(path)
  {
    Stem(path) + FirstStageSuffix
  }

  /**
   * The second-stage output name: piece 0 and piece 1 of the first-stage name split
   * at ".", joined by "_2nd_stage.".  The first-stage name always holds a dot, so
   * piece 1 always exists.
   */
  function SecondStageName(path: string): (name: string)
    ensures name == Before(FirstStageName(path), ".") + SecondStageInfix
                    + Before(After(FirstStageName(path), "."), ".")
  {
    var fileName := FirstStageName(path);
    assert OccursAt(fileName, ".", |fileName| - 4);
    JoinFirstTwoPieces(fileName)
  }

  /**
   * "<piece 0>_2nd_stage.<piece 1>" of a name split at its dots: piece 0 is the text
   * before the first dot, piece 1 the text between the first dot and the next one (or
   * the end).
   */
  function JoinFirstTwoPieces(fileName: string): (name: string)
    requires !Free(fileName, ".")
    ensures name == Before(fileName, ".") + SecondStageInfix + Before(After(fileName, "."), ".")
  {
    var parts := Split(fileName, ".");
    SplitHead(fileName, ".");
    BeforeOfJoin(parts[1..], ".");
    parts[0] + SecondStageInfix + parts[1]
  }

  /** A string without the character '.' has no occurrence of ".". */
  lemma DotFree(x: string)
    requires '.' !in x
    ensures Free(x, ".")
  {
    forall i | 0 <= i <= |x|
      ensures !OccursAt(x, ".", i)
    {
      if i < |x| {
        assert x[i..i + 1] == [x[i]];
      }
    }
  }

  /** Splitting at "." a string whose first dot follows the dot-free `x` yields `x`, then the pieces of the rest. */
  lemma SplitAtFirstDot(x: string, rest: string)
    requires Free(x, ".")
    ensures Split(x + "." + rest, ".") == [x] + Split(rest, ".")
  {
    var s := x + "." + rest;
    assert OccursAt(s, ".", |x|);
    forall i | 0 <= i < |x|
      ensures !OccursAt(s, ".", i)
    {
      assert s[i..i + 1] == x[i..i + 1];
      assert !OccursAt(x, ".", i);
    }
    assert IndexOf(s, ".") == |x|;
    assert s[..|x|] == x;
    assert s[|x| + 1..] == rest;
  }

  /** Python splits "x.y" around its only dot into exactly x and y. */
  lemma SplitAtSingleDot(x: string, y: string)
    requires Free(x, ".") && Free(y, ".")
    ensures Split(x + "." + y, ".") == [x, y]
  {
    SplitAtFirstDot(x, y);
    assert Split(y, ".") == [y];
  }

  /** The literal pieces of the first-stage suffix around its dot. */
  lemma SuffixPiecesDotFree()
    ensures FirstStageSuffix == "_full_data" + "." + "csv"
    ensures Free("_full_data", ".") && Free("csv", ".")
  {
    var fd := "_full_data";
    assert forall i :: 0 <= i < |fd| ==> fd[i] != '.';
    DotFree(fd);
    var csv := "csv";
    assert forall i :: 0 <= i < |csv| ==> csv[i] != '.';
    DotFree(csv);
  }

  /** Gluing two dot-free strings gives a dot-free string. */
  lemma ConcatDotFree(x: string, y: string)
    requires Free(x, ".") && Free(y, ".")
    ensures Free(x + y, ".")
  {
    var s := x + y;
    forall i | 0 <= i <= |s|
      ensures !OccursAt(s, ".", i)
    {
      if i < |x| {
        assert s[i..i + 1] == x[i..i + 1];
        assert !OccursAt(x, ".", i);
      } else if i < |s| {
        assert s[i..i + 1] == y[i - |x|..i - |x| + 1];
        assert !OccursAt(y, ".", i - |x|);
      }
    }
  }

  /** The first-stage name is "<stem>_full_data" and "csv" around a dot. */
  lemma FirstStageNameAroundDot(path: string)
    ensures FirstStageName(path) == (Stem(path) + "_full_data") + "." + "csv"
  {
    assert FirstStageSuffix == "_full_data" + "." + "csv";
  }

  /** A name "a.b" with dot-free pieces gives "a_2nd_stage.b". */
  lemma JoinFirstTwoPiecesOfOneDot(a: string, b: string)
    requires Free(a, ".") && Free(b, ".")
    ensures OccursAt(a + "." + b, ".", |a|) && JoinFirstTwoPieces(a + "." + b) == a + SecondStageInfix + b
  {
    assert OccursAt(a + "." + b, ".", |a|);
    SplitAtSingleDot(a, b);
  }

  /** A name "x.b.c" with dot-free pieces gives "x_2nd_stage.b": the last piece is dropped. */
  lemma JoinFirstTwoPiecesOfTwoDots(x: string, b: string, c: string)
    requires Free(x, ".") && Free(b, ".") && Free(c, ".")
    ensures OccursAt(x + "." + (b + "." + c), ".", |x|) && JoinFirstTwoPieces(x + "." + (b + "." + c)) == x + SecondStageInfix + b
  {
    assert OccursAt(x + "." + (b + "." + c), ".", |x|);
    SplitAtFirstDot(x, b + "." + c);
    SplitAtSingleDot(b, c);
  }

  /** For a dot-free stem the second-stage name is the stem followed by "_full_data_2nd_stage.csv". */
  lemma SecondStageNameOfDotFreeStem(path: string)
    requires Free(Stem(path), ".")
    ensures SecondStageName(path) == Stem(path) + "_full_data_2nd_stage.csv"
  {
    var stem := Stem(path);
    SuffixPiecesDotFree();
    ConcatDotFree(stem, "_full_data");
    FirstStageNameAroundDot(path);
    JoinFirstTwoPiecesOfOneDot(stem + "_full_data", "csv");
    SecondStageLiteral(stem);
  }

  /** The literal concatenation `SecondStageNameOfDotFreeStem` ends with. */
  lemma SecondStageLiteral(stem: string)
    ensures (stem + "_full_data") + SecondStageInfix + "csv" == stem + "_full_data_2nd_stage.csv"
  {
    assert "_full_data" + SecondStageInfix + "csv" == "_full_data_2nd_stage.csv";
  }

  /** Cutting "s.csv" at its first ".csv" gives s back when no dot in s starts a ".c". */
  lemma StemOfCsvPath(s: string)
    requires forall i :: 0 <= i < |s| - 1 && s[i] == '.' ==> s[i + 1] != 'c'
    ensures Stem(s + CsvExtension) == s
  {
    var path := s + CsvExtension;
    assert OccursAt(path, CsvExtension, |s|);
    forall i | 0 <= i < |s|
      ensures !OccursAt(path, CsvExtension, i)
    {
      if path[i] == '.' {
        assert path[i + 1] != 'c';
        assert path[i..i + 4][1] == path[i + 1];
      } else {
        assert path[i..i + 4][0] == path[i];
      }
    }
    assert IndexOf(path, CsvExtension) == |s|;
    assert path[..|s|] == s;
  }

  /**
   * When the stem holds one dot, the second-stage name keeps only what surrounds that
   * dot: "x.y" becomes "x_2nd_stage.y_full_data", and the ".csv" extension is lost.
   */
  lemma SecondStageNameOfDottedStem(path: string, x: string, y: string)
    requires Stem(path) == x + "." + y
    requires Free(x, ".") && Free(y, ".")
    ensures SecondStageName(path) == x + SecondStageInfix + (y + "_full_data")
    ensures !EndsWithCsv(SecondStageName(path))
  {
    var tail := y + "_full_data";
    SuffixPiecesDotFree();
    ConcatDotFree(y, "_full_data");
    FirstStageNameOfDottedStem(path, x, y);
    JoinFirstTwoPiecesOfTwoDots(x, tail, "csv");
    EndsWithData(x + SecondStageInfix + y);
    assert x + SecondStageInfix + tail == (x + SecondStageInfix + y) + "_full_data";
  }

  /** A stem with a dot keeps it: the first-stage name is the stem followed by "_full_data.csv". */
  lemma FirstStageNameOfDottedStem(path: string, x: string, y: string)
    requires Stem(path) == x + "." + y
    ensures FirstStageName(path) == x + "." + ((y + "_full_data") + "." + "csv")
  {
    FirstStageNameAroundDot(path);
  }

  /** A name ending in "_full_data" does not end in ".csv". */
  lemma EndsWithData(z: string)
    ensures !EndsWithCsv(z + "_full_data")
  {
    var name := z + "_full_data";
    assert name[|name| - 4] == 'd';
    assert name[|name| - 4..][0] == name[|name| - 4];
    assert CsvExtension[0] == '.';
  }

  /** The pieces of the relative path "./out/x.csv". */
  lemma RelativePathPieces()
    ensures "./out/x.csv" == "./out/x" + CsvExtension
    ensures "./out/x" == "" + "." + "/out/x"
    ensures forall i :: 0 <= i < |"./out/x"| - 1 && "./out/x"[i] == '.' ==> "./out/x"[i + 1] != 'c'
    ensures Free("", ".") && Free("/out/x", ".")
  {
    var y := "/out/x";
    assert forall i :: 0 <= i < |y| ==> y[i] != '.';
    DotFree(y);
  }

  /** The literal concatenation `DottedDirectoryLosesExtension` ends with. */
  lemma RelativePathResult()
    ensures "" + SecondStageInfix + ("/out/x" + "_full_data") == "_2nd_stage./out/x_full_data"
  {
  }

  /** A relative path such as "./out/x.csv" yields "_2nd_stage./out/x_full_data". */
  lemma DottedDirectoryLosesExtension()
    ensures SecondStageName("./out/x.csv") == "_2nd_stage./out/x_full_data"
  {
    RelativePathPieces();
    StemOfCsvPath("./out/x");
    SecondStageNameOfDottedStem("./out/x.csv", "", "/out/x");
    RelativePathResult();
  }

  /** The pieces of the dotted file name "data.v2.csv". */
  lemma DottedFilePieces()
    ensures "data.v2.csv" == "data.v2" + CsvExtension
    ensures "data.v2" == "data" + "." + "v2"
    ensures forall i :: 0 <= i < |"data.v2"| - 1 && "data.v2"[i] == '.' ==> "data.v2"[i + 1] != 'c'
    ensures Free("data", ".") && Free("v2", ".")
  {
    assert forall i :: 0 <= i < |"data"| ==> "data"[i] != '.';
    assert forall i :: 0 <= i < |"v2"| ==> "v2"[i] != '.';
    DotFree("data");
    DotFree("v2");
  }

  /**
   * A file name with a second dot, "data.v2.csv", is written as
   * "data_2nd_stage.v2_full_data" in the working directory: no ".csv" extension,
   * and not the intended "data.v2_full_data_2nd_stage.csv".
   */
  lemma DottedFileNameLosesExtension()
    ensures SecondStageName("data.v2.csv") == "data_2nd_stage.v2_full_data"
    ensures IntendedSecondStageName("data.v2.csv") == "data.v2_full_data_2nd_stage.csv"
  {
    assert Stem("data.v2.csv") == "data.v2" by {
      DottedFilePieces();
      StemOfCsvPath("data.v2");
    }
    assert SecondStageName("data.v2.csv") == "data" + SecondStageInfix + ("v2" + "_full_data") by {
      DottedFilePieces();
      SecondStageNameOfDottedStem("data.v2.csv", "data", "v2");
    }
    DottedFileResult();
  }

  /** The literal concatenations `DottedFileNameLosesExtension` ends with. */
  lemma DottedFileResult()
    ensures "data" + SecondStageInfix + ("v2" + "_full_data") == "data_2nd_stage.v2_full_data"
    ensures "data.v2" + "_full_data_2nd_stage.csv" == "data.v2_full_data_2nd_stage.csv"
  {
  }

  /**
   * The second-stage name the command evidently intends: the stem followed by
   * "_full_data_2nd_stage.csv", whatever dots the path holds.
   */
  function IntendedSecondStageName(path: string): (name: string)
    ensures |name| > |Stem(path)| && EndsWithCsv(name)
    ensures name[..|Stem(path)|] == Stem(path)
    ensures Free(Stem(path), ".") ==> name == SecondStageName(path)
  {
    var name := Stem(path) + "_full_data_2nd_stage.csv";
    if Free(Stem(path), ".") then
      SecondStageNameOfDotFreeStem(path);
      name
    else
      name
  }
}
