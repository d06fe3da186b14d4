/**
 * The deployment optimisation script (optimize_app.py): its dependency
 * check, its line-based CSS minifier, and the tally of its six steps that
 * decides the exit status.
 *
 * Whether a module can be imported is a predicate passed in; the CSS file
 * is passed in as the text Python reads from it (with universal newlines,
 * so line ends are already `\n`).
 */
module OptimizeApp {
  import opened Text

  // ---------------------------------------------------------------------------
  // Step 3: dependencies
  // ---------------------------------------------------------------------------

  /** The packages the application needs, in the order they are checked. */
  const RequiredPackages: seq<string> :=
    ["streamlit", "openai", "pinecone", "langchain", "langchain-openai", "pandas", "numpy"]

  /** The module name a package is imported under: every `-` becomes `_`. */
  function ImportName(package: string): (name: string)
    ensures |name| == |package|
    ensures '-' !in name
    ensures forall i :: 0 <= i < |package| ==> name[i] == if package[i] == '-' then '_' else package[i]
  {
    ReplaceCharByChar(package, '-', '_');
    Replace(package, "-", "_")
  }

  /** The packages whose import fails, in list order. */
  function MissingPackages(importable: string -> bool, packages: seq<string>): (missing: seq<string>)
    ensures |missing| <= |packages|
    ensures forall i :: 0 <= i < |missing| ==> !importable(ImportName(missing[i]))
  {
    if packages == [] then []
    else
      var p := packages[|packages| - 1];
      MissingPackages(importable, packages[..|packages| - 1]) + (if importable(ImportName(p)) then [] else [p])
  }

  /** A package is reported missing exactly when it is required and its import name cannot be imported. */
  lemma {:induction false} MissingPackagesExactly(importable: string -> bool, packages: seq<string>, p: string)
    ensures p in MissingPackages(importable, packages) <==> p in packages && !importable(ImportName(p))
  {
    if packages != [] {
      var prefix := packages[..|packages| - 1];
      MissingPackagesExactly(importable, prefix, p);
      assert packages == prefix + [packages[|packages| - 1]];
    }
  }

  /** The missing packages keep their list order: the report for a concatenation is the concatenation of the reports. */
  lemma {:induction false} MissingPackagesAppend(importable: string -> bool, a: seq<string>, b: seq<string>)
    ensures MissingPackages(importable, a + b) == MissingPackages(importable, a) + MissingPackages(importable, b)
  {
    if b == [] {
      assert a + b == a;
    } else {
      var init, last := b[..|b| - 1], b[|b| - 1];
      assert (a + b)[..|a + b| - 1] == a + init;
      assert (a + b)[|a + b| - 1] == last;
      MissingPackagesAppend(importable, a, init);
      var tail := if importable(ImportName(last)) then [] else [last];
      calc {
        MissingPackages(importable, a + b);
        MissingPackages(importable, a + init) + tail;
        MissingPackages(importable, a) + MissingPackages(importable, init) + tail;
        MissingPackages(importable, a) + (MissingPackages(importable, init) + tail);
      }
    }
  }

  /** `check_dependencies`: tries each import in turn, collects the failures, and succeeds when there are none. */
  method CheckDependencies(importable: string -> bool) returns (ok: bool, missing: seq<string>)
    ensures missing == MissingPackages(importable, RequiredPackages)
    ensures forall p :: p in missing <==> p in RequiredPackages && !importable(ImportName(p))
    ensures ok <==> missing == []
    ensures ok <==> forall p :: p in RequiredPackages ==> importable(ImportName(p))
  {
    missing := [];
    for i := 0 to |RequiredPackages|
      invariant missing == MissingPackages(importable, RequiredPackages[..i])
    {
      var package := RequiredPackages[i];
      assert RequiredPackages[..i + 1][..i] == RequiredPackages[..i];
      if !importable(Replace(package, "-", "_")) {
        missing := missing + [package];
      }
    }
    assert RequiredPackages[..|RequiredPackages|] == RequiredPackages;
    forall p ensures p in missing <==> p in RequiredPackages && !importable(ImportName(p)) {
      MissingPackagesExactly(importable, RequiredPackages, p);
    }
    ok := missing == [];
    if !ok {
      assert missing[0] in missing;
    }
  }

  // ---------------------------------------------------------------------------
  // Step 4: CSS minification
  // ---------------------------------------------------------------------------

  /** A stripped line survives unless it is blank or opens a comment. */
  predicate KeepLine(line: string) {
    line != [] && !StartsWith(line, "/*")
  }

  /** The stripped lines that survive, in their original order. */
  function KeptLines(lines: seq<string>): (kept: seq<string>)
    ensures |kept| <= |lines|
  {
    if lines == [] then []
    else
      var line := Strip(lines[|lines| - 1]);
      KeptLines(lines[..|lines| - 1]) + (if KeepLine(line) then [line] else [])
  }

  /** The surviving pieces after one more line. */
  lemma KeptLinesStep(lines: seq<string>, i: nat)
    requires i < |lines|
    ensures KeptLines(lines[..i + 1]) ==
      KeptLines(lines[..i]) + (if KeepLine(Strip(lines[i])) then [Strip(lines[i])] else [])
  {
    assert lines[..i + 1][..i] == lines[..i];
  }

  /** The minified stylesheet: the surviving lines joined by single spaces. */
  function Minified(cssContent: string): string {
    Join(KeptLines(Split(cssContent, '\n')), " ")
  }

  /** Every surviving piece is stripped, non-empty and does not open a comment. */
  lemma {:induction false} KeptLinesClean(lines: seq<string>, x: string)
    requires x in KeptLines(lines)
    ensures x != [] && Strip(x) == x && !StartsWith(x, "/*")
  {
    var init, line := lines[..|lines| - 1], Strip(lines[|lines| - 1]);
    if x in KeptLines(init) {
      KeptLinesClean(init, x);
    } else {
      assert x == line;
      StripIdempotent(lines[|lines| - 1]);
    }
  }

  /** A surviving piece is a kept line: some line strips to it and it is neither blank nor a comment opening. */
  lemma {:induction false} KeptLinesSound(lines: seq<string>, x: string)
    requires x in KeptLines(lines)
    ensures KeepLine(x)
    ensures exists i :: 0 <= i < |lines| && Strip(lines[i]) == x
  {
    var n := |lines| - 1;
    var prefix := lines[..n];
    if x in KeptLines(prefix) {
      KeptLinesSound(prefix, x);
      var i :| 0 <= i < n && Strip(prefix[i]) == x;
      assert lines[i] == prefix[i];
    } else {
      assert Strip(lines[n]) == x;
    }
  }

  /** Every line that strips to a non-blank text not opening a comment survives. */
  lemma {:induction false} KeptLinesComplete(lines: seq<string>, i: nat)
    requires i < |lines| && KeepLine(Strip(lines[i]))
    ensures Strip(lines[i]) in KeptLines(lines)
  {
    var n := |lines| - 1;
    var prefix, x := lines[..n], Strip(lines[i]);
    var tail := if KeepLine(Strip(lines[n])) then [Strip(lines[n])] else [];
    assert KeptLines(lines) == KeptLines(prefix) + tail;
    if i < n {
      assert prefix[i] == lines[i];
      KeptLinesComplete(prefix, i);
      assert x in KeptLines(prefix);
    } else {
      assert tail == [x];
    }
  }

  /**
   * A piece survives exactly when some line strips to it and it is neither
   * blank nor the opening of a comment: comment continuation lines and lines
   * with a trailing comment are kept.
   */
  lemma KeptLinesExactly(lines: seq<string>, x: string)
    ensures x in KeptLines(lines) <==> KeepLine(x) && exists i :: 0 <= i < |lines| && Strip(lines[i]) == x
  {
    if x in KeptLines(lines) {
      KeptLinesSound(lines, x);
    }
    if KeepLine(x) && exists i :: 0 <= i < |lines| && Strip(lines[i]) == x {
      var i :| 0 <= i < |lines| && Strip(lines[i]) == x;
      KeptLinesComplete(lines, i);
    }
  }

  /** Lines keep their relative order: minifying a concatenation concatenates the results. */
  lemma {:induction false} KeptLinesAppend(a: seq<string>, b: seq<string>)
    ensures KeptLines(a + b) == KeptLines(a) + KeptLines(b)
  {
    if b == [] {
      assert a + b == a;
    } else {
      var init, line := b[..|b| - 1], Strip(b[|b| - 1]);
      assert (a + b)[..|a + b| - 1] == a + init;
      assert (a + b)[|a + b| - 1] == b[|b| - 1];
      KeptLinesAppend(a, init);
      var tail := if KeepLine(line) then [line] else [];
      calc {
        KeptLines(a + b);
        KeptLines(a + init) + tail;
        KeptLines(a) + KeptLines(init) + tail;
        KeptLines(a) + (KeptLines(init) + tail);
      }
    }
  }

  /** The minified stylesheet is a single line. */
  lemma MinifiedHasNoNewline(cssContent: string)
    ensures '\n' !in Minified(cssContent)
  {
    var lines := Split(cssContent, '\n');
    SplitExcludes(cssContent, '\n');
    KeptLinesNoNewline(lines);
    JoinExcludes(KeptLines(lines), " ", '\n');
  }

  /** Lines without a newline strip to pieces without a newline. */
  lemma {:induction false} KeptLinesNoNewline(lines: seq<string>)
    requires forall i :: 0 <= i < |lines| ==> '\n' !in lines[i]
    ensures forall i :: 0 <= i < |KeptLines(lines)| ==> '\n' !in KeptLines(lines)[i]
  {
    if lines != [] {
      KeptLinesNoNewline(lines[..|lines| - 1]);
      StripChars(lines[|lines| - 1]);
    }
  }

  /** The size the script reports: the pieces' lengths plus one space between each neighbouring pair. */
  lemma MinifiedSize(cssContent: string)
    ensures var kept := KeptLines(Split(cssContent, '\n'));
      |Minified(cssContent)| == if kept == [] then 0 else SumLengths(kept) + |kept| - 1
  {
    JoinLength(KeptLines(Split(cssContent, '\n')), " ");
  }

  /** The stylesheet as the script finds it. */
  datatype CssSource =
    | Absent                     // `os.path.exists` is false
    | Unreadable                 // opening or reading raised
    | Present(content: string)   // the text read

  /** The loop of `optimize_css`: strips every line and keeps the non-blank ones that do not open a comment. */
  method FilterLines(lines: seq<string>) returns (minifiedLines: seq<string>)
    ensures minifiedLines == KeptLines(lines)
  {
    minifiedLines := [];
    for i := 0 to |lines|
      invariant minifiedLines == KeptLines(lines[..i])
    {
      KeptLinesStep(lines, i);
      var line := Strip(lines[i]);
      if line != [] && !StartsWith(line, "/*") {
        minifiedLines := minifiedLines + [line];
      }
    }
    assert lines[..|lines|] == lines;
  }

  /**
   * The body of `optimize_css`: the lines that survive, in order, and the
   * text written to the minified file.
   */
  method MinifyCss(cssContent: string) returns (minifiedLines: seq<string>, minified: string)
    ensures minifiedLines == KeptLines(Split(cssContent, '\n'))
    ensures minified == Minified(cssContent)
    ensures '\n' !in minified
  {
    var lines := Split(cssContent, '\n');
    minifiedLines := FilterLines(lines);
    minified := Join(minifiedLines, " ");
    MinifiedHasNoNewline(cssContent);
  }

  /**
   * `optimize_css`: fails when the file is absent or unreadable or the write
   * fails, and also for an empty stylesheet, whose size-reduction ratio
   * divides by zero after the minified file has been written.
   */
  method OptimizeCss(css: CssSource, writeSucceeds: bool) returns (ok: bool, written: string, wroteFile: bool)
    ensures wroteFile <==> css.Present? && writeSucceeds
    ensures wroteFile ==> written == Minified(css.content)
    ensures ok <==> css.Present? && writeSucceeds && css.content != []
  {
    ok, written, wroteFile := false, [], false;
    match css
    case Absent =>
      // "CSS file not found"
    case Unreadable =>
      // the read raised and was caught
    case Present(content) =>
      var minifiedLines, minified := MinifyCss(content);
      if writeSucceeds {
        written, wroteFile := minified, true;
        var originalSize := |content|;
        // the size-reduction ratio divides by originalSize: ZeroDivisionError is caught
        ok := originalSize != 0;
      }
  }

  // ---------------------------------------------------------------------------
  // The six steps
  // ---------------------------------------------------------------------------

  /** How many steps returned true. */
  function SuccessCount(results: seq<bool>): (n: nat)
    ensures n <= |results|
  {
    if results == [] then 0 else (if results[0] then 1 else 0) + SuccessCount(results[1..])
  }

  /** Every step succeeded exactly when the count reaches the number of steps. */
  lemma {:induction false} SuccessCountAll(results: seq<bool>)
    ensures SuccessCount(results) == |results| <==> forall i :: 0 <= i < |results| ==> results[i]
  {
    if results != [] {
      SuccessCountAll(results[1..]);
      if forall i :: 0 <= i < |results| - 1 ==> results[1..][i] {
        assert SuccessCount(results[1..]) == |results| - 1;
      }
    }
  }

  /** The count over six results is the number of them that hold. */
  lemma SuccessCountOfSix(r1: bool, r2: bool, r3: bool, r4: bool, r5: bool, r6: bool)
    ensures SuccessCount([r1, r2, r3, r4, r5, r6]) ==
      (if r1 then 1 else 0) + (if r2 then 1 else 0) + (if r3 then 1 else 0)
      + (if r4 then 1 else 0) + (if r5 then 1 else 0) + (if r6 then 1 else 0)
  {
    var s6, s5, s4 := [r6], [r5, r6], [r4, r5, r6];
    var s3, s2, s1 := [r3, r4, r5, r6], [r2, r3, r4, r5, r6], [r1, r2, r3, r4, r5, r6];
    assert s6[1..] == [];
    assert SuccessCount(s6) == (if r6 then 1 else 0);
    assert s5[1..] == s6;
    assert SuccessCount(s5) == (if r5 then 1 else 0) + SuccessCount(s6);
    assert s4[1..] == s5;
    assert SuccessCount(s4) == (if r4 then 1 else 0) + SuccessCount(s5);
    assert s3[1..] == s4;
    assert SuccessCount(s3) == (if r3 then 1 else 0) + SuccessCount(s4);
    assert s2[1..] == s3;
    assert SuccessCount(s2) == (if r2 then 1 else 0) + SuccessCount(s3);
    assert s1[1..] == s2;
  }

  /**
   * `main` and the script's exit: runs the six steps in order, counts those
   * that succeed, and exits with 0 exactly when all six do. Steps 1, 2 and 6
   * are given by their results; step 5 catches every failure of the imports
   * it times and so always succeeds.
   */
  method RunOptimization(
    chunkOptimizationOk: bool, performanceUtilsOk: bool, importable: string -> bool,
    css: CssSource, cssWriteSucceeds: bool, reportOk: bool)
    returns (successCount: nat, allSucceeded: bool, exitStatus: int)
    ensures successCount == SuccessCount([
      chunkOptimizationOk, performanceUtilsOk, MissingPackages(importable, RequiredPackages) == [],
      css.Present? && cssWriteSucceeds && css.content != [], true, reportOk])
    ensures 1 <= successCount <= 6
    ensures allSucceeded <==> successCount == 6
    ensures allSucceeded <==>
      && chunkOptimizationOk && performanceUtilsOk && reportOk
      && (forall p :: p in RequiredPackages ==> importable(ImportName(p)))
      && css.Present? && css.content != [] && cssWriteSucceeds
    ensures exitStatus == if allSucceeded then 0 else 1
  {
    successCount := 0;
    var totalSteps := 6;
    successCount := successCount + if chunkOptimizationOk then 1 else 0;
    successCount := successCount + if performanceUtilsOk then 1 else 0;
    var dependenciesOk, _ := CheckDependencies(importable);
    successCount := successCount + if dependenciesOk then 1 else 0;
    var cssOk, _, _ := OptimizeCss(css, cssWriteSucceeds);
    successCount := successCount + if cssOk then 1 else 0;
    var performanceTestsOk := true;
    successCount := successCount + if performanceTestsOk then 1 else 0;
    successCount := successCount + if reportOk then 1 else 0;
    SuccessCountOfSix(chunkOptimizationOk, performanceUtilsOk, dependenciesOk, cssOk, performanceTestsOk, reportOk);
    allSucceeded := successCount == totalSteps;
    exitStatus := if allSucceeded then 0 else 1;
  }
}
