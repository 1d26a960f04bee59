/**
 * services/edi_validator.py: the structural check of a message. The text is
 * trimmed and split into non-blank lines, every line is checked for its
 * terminator, and a cursor then walks the lines block by block (LIN, PAC+++,
 * PAC count, then PCI/RFF pairs), collecting every problem it meets.
 *
 * The diagnostics are values, not message strings: `LineError(k, p)` is the
 * message "Line k: ..." for problem `p`.
 */
module EdiValidator {
  import opened Wrappers
  import opened Text
  import opened Cargo

  datatype Problem =
    | MissingQuote                                           // "Each line must end with a single quote (')"
    | ExpectedLin(index: nat)                                // "Expected LIN+<index>+I'"
    | ExpectedPacType                                        // "Expected PAC+++<cargo_type>:67:95'"
    | ExpectedPacCount                                       // "Expected PAC+<number>+1'"
    | PacCountBelowOne                                       // "PAC+ number must be 1 or greater"
    | PacCountNotPositiveInteger                             // "... must be a positive integer without any symbols"
    | EmptyReference(qualifier: Qualifier)                   // "RFF+<q>: value cannot be empty"
    | InvalidReferenceChars(qualifier: Qualifier, chars: set<char>) // "... contains invalid characters: ..."
    | ExpectedReference                                      // "Expected RFF+AAQ/MB/BH after PCI+1'"
    | UnexpectedEndAfterPci                                  // "Unexpected end after PCI+1'"

  datatype Diagnostic =
    | EmptyLinesFound                                        // "Empty lines are not allowed between EDI segments"
    | LineError(line: nat, problem: Problem)

  // ---------------------------------------------------------------------------
  // Preparing the lines

  /** A match of the regex `\n\s*\n`: two line feeds with nothing but
      whitespace between them. */
  predicate HasEmptyLineRun(edi: string) {
    exists i, j :: 0 <= i < j < |edi| && edi[i] == '\n' && edi[j] == '\n'
      && forall m :: i < m < j ==> IsWhitespace(edi[m])
  }

  /** From position `k`, `s` holds whitespace up to and including a line
      feed (`\s*\n` matches at `k`). */
  predicate BlankToNewline(s: string, k: nat)
    decreases |s| - k
  {
    k < |s| && (s[k] == '\n' || (IsWhitespace(s[k]) && BlankToNewline(s, k + 1)))
  }

  /** `EMPTY_LINE_PATTERN.search(s)` tried from position `k` on. */
  predicate SearchEmptyLines(s: string, k: nat)
    decreases |s| - k
  {
    k < |s| && ((s[k] == '\n' && BlankToNewline(s, k + 1)) || SearchEmptyLines(s, k + 1))
  }

  lemma {:induction false} BlankToNewlineSpec(s: string, k: nat)
    ensures BlankToNewline(s, k) <==> exists j :: k <= j < |s| && s[j] == '\n' && forall m :: k <= m < j ==> IsWhitespace(s[m])
    decreases |s| - k
  {
    if k < |s| {
      BlankToNewlineSpec(s, k + 1);
      if !BlankToNewline(s, k) {
        forall j | k <= j < |s| && s[j] == '\n' ensures exists m :: k <= m < j && !IsWhitespace(s[m]) {
          if IsWhitespace(s[k]) {
            var m :| k + 1 <= m < j && !IsWhitespace(s[m]);
          }
        }
      }
    }
  }

  /** The search finds a match exactly when there is one. */
  lemma {:induction false} SearchEmptyLinesSpec(s: string, k: nat)
    ensures SearchEmptyLines(s, k) <==>
              exists i, j :: k <= i < j < |s| && s[i] == '\n' && s[j] == '\n' && forall m :: i < m < j ==> IsWhitespace(s[m])
    decreases |s| - k
  {
    if k < |s| {
      SearchEmptyLinesSpec(s, k + 1);
      BlankToNewlineSpec(s, k + 1);
      if s[k] == '\n' && BlankToNewline(s, k + 1) {
        var j :| k + 1 <= j < |s| && s[j] == '\n' && forall m :: k + 1 <= m < j ==> IsWhitespace(s[m]);
        assert k < j;
      }
    }
  }

  /** The search from the start finds a match exactly when the text has one. */
  lemma SearchFindsEmptyLineRun(edi: string)
    ensures SearchEmptyLines(edi, 0) <==> HasEmptyLineRun(edi)
  {
    SearchEmptyLinesSpec(edi, 0);
  }

  /** The list comprehension `[line.strip() for line in ls if line.strip()]`. */
  function StripNonBlank(ls: seq<string>): (r: seq<string>)
    ensures |r| <= |ls|
    ensures forall k :: 0 <= k < |r| ==> Trimmed(r[k])
    decreases |ls|
  {
    if ls == [] then []
    else
      var t := Strip(ls[0]);
      var rest := StripNonBlank(ls[1..]);
      if t == [] then rest
      else
        TrimmedCons(t, rest);
        [t] + rest
  }

  /** On one line: the stripped line if it is not blank, nothing otherwise. */
  lemma StripNonBlankOne(l: string)
    ensures StripNonBlank([l]) == if Strip(l) == [] then [] else [Strip(l)]
  {
  }

  /** The lines are taken one by one and in order: the result for a
      concatenation is the concatenation of the results. With
      `StripNonBlankOne` this fixes `StripNonBlank` on every list. */
  lemma {:induction false} StripNonBlankAppend(a: seq<string>, b: seq<string>)
    ensures StripNonBlank(a + b) == StripNonBlank(a) + StripNonBlank(b)
    decreases |a|
  {
    if a == [] {
      assert a + b == b;
    } else {
      assert (a + b)[0] == a[0] && (a + b)[1..] == a[1..] + b;
      StripNonBlankAppend(a[1..], b);
    }
  }

  lemma TrimmedCons(t: string, rest: seq<string>)
    requires Trimmed(t) && forall k :: 0 <= k < |rest| ==> Trimmed(rest[k])
    ensures forall k :: 0 <= k < |[t] + rest| ==> Trimmed(([t] + rest)[k])
  {
    var r := [t] + rest;
    forall k | 0 <= k < |r|
      ensures Trimmed(r[k])
    {
      if k > 0 {
        assert r[k] == rest[k - 1];
      }
    }
  }

  /** The lines the validator works on. */
  function MessageLines(edi: string): seq<string> {
    StripNonBlank(SplitLines(Strip(edi)))
  }

  // ---------------------------------------------------------------------------
  // The terminator check

  /** The diagnostics of the first `n` lines' terminator check. */
  function QuoteErrors(lines: seq<string>, n: nat): seq<Diagnostic>
    requires n <= |lines|
  {
    if n == 0 then []
    else
      var prev := QuoteErrors(lines, n - 1);
      if EndsWith(lines[n - 1], "'") then prev else prev + [LineError(n, MissingQuote)]
  }

  /** One diagnostic per line that does not end with `'`, naming that line,
      and in ascending line order. */
  lemma {:induction false} QuoteErrorsSpec(lines: seq<string>, n: nat)
    requires n <= |lines|
    ensures forall d :: d in QuoteErrors(lines, n) ==> d.LineError? && d.problem == MissingQuote && 1 <= d.line <= n
    ensures forall m :: 1 <= m <= n ==> (LineError(m, MissingQuote) in QuoteErrors(lines, n) <==> !EndsWith(lines[m - 1], "'"))
    ensures forall a, b :: 0 <= a < b < |QuoteErrors(lines, n)| ==> QuoteErrors(lines, n)[a].line < QuoteErrors(lines, n)[b].line
  {
    if n > 0 {
      QuoteErrorsSpec(lines, n - 1);
    }
  }

  // ---------------------------------------------------------------------------
  // The block walk

  /** What the first line of block `n` must start with: `LIN+<n>+I`. */
  function LinPrefix(n: nat): string {
    "LIN+" + NatToString(n) + "+I"
  }

  /** The value `PAC_PATTERN.match(line)` captures, as `int` reads it: the
      digits after `PAC+`, if they are followed by `+1'`. The maximal digit run
      is the only candidate, since a shorter one is followed by a digit. */
  function PacPatternNumber(line: string): (r: Option<nat>)
    ensures r.Some? ==> StartsWith(line, "PAC+") && |line| > 4 && IsAsciiDigit(line[4])
  {
    if StartsWith(line, "PAC+") then
      var run := DigitRun(line[4..]);
      if run != [] && StartsWith(line[4 + |run|..], "+1'") then Some(DigitsValue(run)) else None
    else None
  }

  /** The checks of a present package-count line. */
  function CountLineErrors(line: string, lineNum: nat): seq<Diagnostic> {
    if !(StartsWith(line, "PAC+") && Contains(line, "+1'")) then [LineError(lineNum, ExpectedPacCount)]
    else
      match PacPatternNumber(line)
      case None => [LineError(lineNum, PacCountNotPositiveInteger)]
      case Some(number) => if number < 1 then [LineError(lineNum, PacCountBelowOne)] else []
  }

  /** The distinct characters the regex `[^a-zA-Z0-9]` finds. */
  function InvalidChars(s: string): set<char> {
    set c | c in s && !IsAsciiAlnum(c)
  }

  /** `findall` finds nothing exactly when every character is an ASCII letter
      or digit. */
  lemma InvalidCharsEmpty(s: string)
    ensures InvalidChars(s) == {} <==> IsAsciiAlnumString(s)
  {
    if InvalidChars(s) == {} {
      forall i | 0 <= i < |s| ensures IsAsciiAlnum(s[i]) {
        assert s[i] in s;
        assert s[i] !in InvalidChars(s);
      }
    }
  }

  /** The check of a reference line: its value is everything after the first
      ':' with every trailing `'` removed. */
  function ReferenceErrors(line: string, lineNum: nat, q: Qualifier): seq<Diagnostic> {
    var content := TrimEndChar(After(line, ":"), '\'');
    if content == [] then [LineError(lineNum, EmptyReference(q))]
    else
      var bad := InvalidChars(content);
      if bad == {} then [] else [LineError(lineNum, InvalidReferenceChars(q, bad))]
  }

  /** The PCI/RFF loop from cursor `i`: its diagnostics and where the cursor
      stops. A `PCI+1` line followed by a line that is no reference is
      reported and the cursor stays on that line. */
  function PciPairs(lines: seq<string>, i: nat): (r: (seq<Diagnostic>, nat))
    ensures r.1 >= i
    decreases |lines| - i
  {
    if i >= |lines| || !StartsWith(lines[i], "PCI+1") then ([], i)
    else
      var j := i + 1;
      if j < |lines| then
        match ReferenceQualifier(lines[j])
        case Some(q) =>
          var rest := PciPairs(lines, j + 1);
          (ReferenceErrors(lines[j], j + 1, q) + rest.0, rest.1)
        case None =>
          var rest := PciPairs(lines, j);
          ([LineError(j + 1, ExpectedReference)] + rest.0, rest.1)
      else ([LineError(j, UnexpectedEndAfterPci)], j)
  }

  /** The check of the line at cursor `i` as the LIN line of block `n`. */
  function LinErrors(lines: seq<string>, i: nat, n: nat): seq<Diagnostic>
    requires i < |lines|
  {
    if StartsWith(lines[i], LinPrefix(n)) then [] else [LineError(i + 1, ExpectedLin(n))]
  }

  /** The check of the line at cursor `i` as the PAC+++ line; the line may be
      missing. */
  function PacTypeErrors(lines: seq<string>, i: nat): seq<Diagnostic> {
    if i >= |lines| || !StartsWith(lines[i], "PAC+++") then [LineError(i + 1, ExpectedPacType)] else []
  }

  /** The check of the line at cursor `i` as the package-count line; the line
      may be missing. */
  function PacCountErrors(lines: seq<string>, i: nat): seq<Diagnostic> {
    if i >= |lines| then [LineError(i + 1, ExpectedPacCount)] else CountLineErrors(lines[i], i + 1)
  }

  /** One pass of the outer loop at cursor `i` for block `n`: its diagnostics
      and the cursor after it, at least three lines further on. */
  function Block(lines: seq<string>, i: nat, n: nat): (r: (seq<Diagnostic>, nat))
    requires i < |lines|
    ensures r.1 >= i + 3
  {
    var pairs := PciPairs(lines, i + 3);
    (LinErrors(lines, i, n) + PacTypeErrors(lines, i + 1) + PacCountErrors(lines, i + 2) + pairs.0, pairs.1)
  }

  /** The outer loop from cursor `i` with block counter `n`. */
  function Scan(lines: seq<string>, i: nat, n: nat): seq<Diagnostic>
    decreases |lines| - i
  {
    if i >= |lines| then []
    else
      var b := Block(lines, i, n);
      b.0 + Scan(lines, b.1, n + 1)
  }

  lemma ValidationErrorsParts(edi: string, pre: seq<Diagnostic>)
    requires pre == if SearchEmptyLines(edi, 0) then [] + [EmptyLinesFound] else []
    ensures ValidationErrors(edi) == pre + QuoteErrors(MessageLines(edi), |MessageLines(edi)|) + Scan(MessageLines(edi), 0, 1)
  {
    assert [] + [EmptyLinesFound] == [EmptyLinesFound];
  }

  lemma ScanUnfold(lines: seq<string>, i: nat, n: nat)
    requires i < |lines|
    ensures Scan(lines, i, n) == Block(lines, i, n).0 + Scan(lines, Block(lines, i, n).1, n + 1)
  {
  }

  /** Every diagnostic of `validate_edi_message`, in order. */
  function ValidationErrors(edi: string): seq<Diagnostic> {
    var lines := MessageLines(edi);
    (if SearchEmptyLines(edi, 0) then [EmptyLinesFound] else []) + QuoteErrors(lines, |lines|) + Scan(lines, 0, 1)
  }

  // ---------------------------------------------------------------------------
  // The validator

  /** The terminator loop: appends one diagnostic per line without a final `'`. */
  method CheckTerminators(lines: seq<string>, before: seq<Diagnostic>) returns (errors: seq<Diagnostic>)
    ensures errors == before + QuoteErrors(lines, |lines|)
  {
    errors := before;
    assert QuoteErrors(lines, 0) == [];
    for k := 0 to |lines|
      invariant errors == before + QuoteErrors(lines, k)
    {
      if !EndsWith(lines[k], "'") {
        errors := errors + [LineError(k + 1, MissingQuote)];
      }
    }
  }

  /** The inner PCI/RFF loop from cursor `start`. */
  method CheckPciPairs(lines: seq<string>, start: nat, before: seq<Diagnostic>) returns (i: nat, errors: seq<Diagnostic>)
    ensures errors == before + PciPairs(lines, start).0
    ensures i == PciPairs(lines, start).1
  {
    i := start;
    errors := before;
    while i < |lines| && StartsWith(lines[i], "PCI+1")
      invariant start <= i
      invariant errors + PciPairs(lines, i).0 == before + PciPairs(lines, start).0
      invariant PciPairs(lines, i).1 == PciPairs(lines, start).1
      decreases |lines| - i
    {
      PciPairsTurn(lines, i);
      i := i + 1;
      if i < |lines| {
        var line := lines[i];
        var qualifier := ReferenceQualifier(line);
        if qualifier.Some? {
          AppendAssoc(errors, ReferenceErrors(line, i + 1, qualifier.value), PciPairs(lines, i + 1).0);
          errors := errors + ReferenceErrors(line, i + 1, qualifier.value);
          i := i + 1;
        } else {
          AppendAssoc(errors, [LineError(i + 1, ExpectedReference)], PciPairs(lines, i).0);
          errors := errors + [LineError(i + 1, ExpectedReference)];
        }
      } else {
        errors := errors + [LineError(i, UnexpectedEndAfterPci)];
        assert PciPairs(lines, i) == ([], i);
        assert errors + [] == errors;
      }
    }
  }

  /** One turn of the inner loop on a PCI line at cursor `i`. */
  lemma PciPairsTurn(lines: seq<string>, i: nat)
    requires i < |lines| && StartsWith(lines[i], "PCI+1")
    ensures i + 1 == |lines| ==> PciPairs(lines, i) == ([LineError(i + 1, UnexpectedEndAfterPci)], i + 1)
    ensures i + 1 < |lines| && ReferenceQualifier(lines[i + 1]).Some? ==>
              PciPairs(lines, i)
              == (ReferenceErrors(lines[i + 1], i + 2, ReferenceQualifier(lines[i + 1]).value) + PciPairs(lines, i + 2).0,
                  PciPairs(lines, i + 2).1)
    ensures i + 1 < |lines| && ReferenceQualifier(lines[i + 1]).None? ==>
              PciPairs(lines, i) == ([LineError(i + 2, ExpectedReference)] + PciPairs(lines, i + 1).0, PciPairs(lines, i + 1).1)
  {
  }

  /** One pass of the outer loop: the LIN, PAC+++ and package-count checks at
      cursor `start`, then the PCI/RFF pairs. */
  method CheckBlock(lines: seq<string>, start: nat, cargoIndex: nat, before: seq<Diagnostic>) returns (i: nat, errors: seq<Diagnostic>)
    requires start < |lines|
    ensures errors == before + Block(lines, start, cargoIndex).0
    ensures i == Block(lines, start, cargoIndex).1
  {
    errors := before;
    i := start;
    if !StartsWith(lines[i], LinPrefix(cargoIndex)) {
      errors := errors + [LineError(i + 1, ExpectedLin(cargoIndex))];
    }
    i := i + 1;
    assert errors == before + LinErrors(lines, start, cargoIndex);

    ghost var beforePacType := errors;
    if i >= |lines| || !StartsWith(lines[i], "PAC+++") {
      errors := errors + [LineError(i + 1, ExpectedPacType)];
    }
    assert errors == beforePacType + PacTypeErrors(lines, i);
    i := i + 1;

    ghost var beforePacCount := errors;
    if i >= |lines| || !(StartsWith(lines[i], "PAC+") && Contains(lines[i], "+1'")) {
      errors := errors + [LineError(i + 1, ExpectedPacCount)];
    } else {
      var pacMatch := PacPatternNumber(lines[i]);
      if pacMatch.Some? {
        if pacMatch.value < 1 {
          errors := errors + [LineError(i + 1, PacCountBelowOne)];
        }
      } else {
        errors := errors + [LineError(i + 1, PacCountNotPositiveInteger)];
      }
    }
    assert errors == beforePacCount + PacCountErrors(lines, i);
    i := i + 1;

    i, errors := CheckPciPairs(lines, i, errors);
    AppendBlock(before, LinErrors(lines, start, cargoIndex), PacTypeErrors(lines, start + 1),
      PacCountErrors(lines, start + 2), PciPairs(lines, start + 3).0);
  }

  lemma AppendAssoc<T>(a: seq<T>, b: seq<T>, c: seq<T>)
    ensures a + (b + c) == a + b + c
  {
  }

  lemma TailIndex<T>(pre: seq<T>, tail: seq<T>, k: nat)
    requires |pre| <= k < |pre| + |tail|
    ensures (pre + tail)[k] in tail
  {
    assert (pre + tail)[k] == tail[k - |pre|];
  }

  lemma AppendBlock<T>(before: seq<T>, a: seq<T>, b: seq<T>, c: seq<T>, d: seq<T>)
    ensures before + (a + b + c + d) == before + a + b + c + d
  {
  }

  /** `validate_edi_message`: never fails, reports every problem, and is valid
      exactly when there is none. The cursor loop moves at least three lines
      per block, so it ends. */
  method ValidateEdiMessage(edi: string) returns (ok: bool, errors: seq<Diagnostic>)
    ensures errors == ValidationErrors(edi)
    ensures ok <==> errors == []
  {
    errors := [];
    if SearchEmptyLines(edi, 0) {
      errors := errors + [EmptyLinesFound];
    }
    var lines := MessageLines(edi);
    var lineCount := |lines|;
    ValidationErrorsParts(edi, errors);
    errors := CheckTerminators(lines, errors);

    var i: nat := 0;
    var cargoIndex: nat := 1;
    ghost var target := errors + Scan(lines, 0, 1);
    while i < lineCount
      invariant errors + Scan(lines, i, cargoIndex) == target
      decreases lineCount - i
    {
      ghost var block := Block(lines, i, cargoIndex);
      ghost var rest := Scan(lines, block.1, cargoIndex + 1);
      ScanUnfold(lines, i, cargoIndex);
      AppendAssoc(errors, block.0, rest);
      i, errors := CheckBlock(lines, i, cargoIndex, errors);
      cargoIndex := cargoIndex + 1;
    }
    assert Scan(lines, i, cargoIndex) == [];
    assert errors + [] == errors;
    ok := |errors| == 0;
  }

  // ---------------------------------------------------------------------------
  // Properties of the walk

  /** The PCI/RFF loop reports only reference problems on lines it has read,
      and never moves the cursor past the end. */
  lemma {:induction false} PciPairsSpec(lines: seq<string>, i: nat)
    ensures i <= |lines| ==> PciPairs(lines, i).1 <= |lines|
    ensures forall d :: d in PciPairs(lines, i).0 ==>
              d.LineError? && i + 1 <= d.line <= |lines| && !d.problem.MissingQuote?
    decreases |lines| - i
  {
    if i < |lines| && StartsWith(lines[i], "PCI+1") && i + 1 < |lines| {
      match ReferenceQualifier(lines[i + 1])
      case Some(q) => PciPairsSpec(lines, i + 2);
      case None => PciPairsSpec(lines, i + 1);
    }
  }

  /** A block's diagnostics name lines from the block's first line on, at
      most two past the end of the input (a missing PAC line is reported at
      the line number it would have had). */
  lemma BlockSpec(lines: seq<string>, i: nat, n: nat)
    requires i < |lines|
    ensures forall d :: d in Block(lines, i, n).0 ==>
              d.LineError? && i + 1 <= d.line <= |lines| + 2 && !d.problem.MissingQuote?
  {
    var head := LinErrors(lines, i, n) + PacTypeErrors(lines, i + 1) + PacCountErrors(lines, i + 2);
    var pairs := PciPairs(lines, i + 3).0;
    HeaderDiagnostics(lines, i, n, head);
    PciPairsSpec(lines, i + 3);
    WalkDiagnosticsAppend(head, pairs, i + 1, |lines| + 2);
  }

  /** A diagnostic of the block walk: it names a line between `lo` and `hi`
      and is no terminator diagnostic. */
  predicate WalkDiagnostic(d: Diagnostic, lo: nat, hi: nat) {
    d.LineError? && lo <= d.line <= hi && !d.problem.MissingQuote?
  }

  /** The checks of the three mandatory lines name those lines. */
  lemma HeaderDiagnostics(lines: seq<string>, i: nat, n: nat, head: seq<Diagnostic>)
    requires i < |lines|
    requires head == LinErrors(lines, i, n) + PacTypeErrors(lines, i + 1) + PacCountErrors(lines, i + 2)
    ensures forall d :: d in head ==> WalkDiagnostic(d, i + 1, i + 3)
  {
    var lin := LinErrors(lines, i, n);
    var pacType := PacTypeErrors(lines, i + 1);
    var pacCount := PacCountErrors(lines, i + 2);
    assert forall d :: d in lin ==> WalkDiagnostic(d, i + 1, i + 3);
    assert forall d :: d in pacType ==> WalkDiagnostic(d, i + 1, i + 3);
    assert forall d :: d in pacCount ==> WalkDiagnostic(d, i + 1, i + 3);
    WalkDiagnosticsAppend(lin, pacType, i + 1, i + 3);
    WalkDiagnosticsAppend(lin + pacType, pacCount, i + 1, i + 3);
  }

  lemma WalkDiagnosticsAppend(a: seq<Diagnostic>, b: seq<Diagnostic>, lo: nat, hi: nat)
    requires forall d :: d in a ==> WalkDiagnostic(d, lo, hi)
    requires forall d :: d in b ==> WalkDiagnostic(d, lo, hi)
    ensures forall d :: d in a + b ==> WalkDiagnostic(d, lo, hi)
  {
  }

  lemma {:induction false} ScanSpec(lines: seq<string>, i: nat, n: nat)
    ensures forall d :: d in Scan(lines, i, n) ==>
              d.LineError? && i + 1 <= d.line <= |lines| + 2 && !d.problem.MissingQuote?
    decreases |lines| - i
  {
    if i < |lines| {
      BlockSpec(lines, i, n);
      ScanSpec(lines, Block(lines, i, n).1, n + 1);
    }
  }

  /** The layout of the result: the empty-line diagnostic is present exactly
      when the text has a line feed, whitespace, line feed run, and then it
      is the first and only one of its kind; line k has a terminator
      diagnostic exactly when it does not end with `'`. */
  lemma DiagnosticsLayout(edi: string)
    ensures EmptyLinesFound in ValidationErrors(edi) <==> HasEmptyLineRun(edi)
    ensures HasEmptyLineRun(edi) ==> ValidationErrors(edi)[0] == EmptyLinesFound
    ensures forall k :: 0 < k < |ValidationErrors(edi)| ==> ValidationErrors(edi)[k] != EmptyLinesFound
    ensures forall m :: 1 <= m <= |MessageLines(edi)| ==>
              (LineError(m, MissingQuote) in ValidationErrors(edi) <==> !EndsWith(MessageLines(edi)[m - 1], "'"))
  {
    EmptyLinesLayout(edi);
    QuoteLayout(edi);
  }

  lemma EmptyLinesLayout(edi: string)
    ensures EmptyLinesFound in ValidationErrors(edi) <==> HasEmptyLineRun(edi)
    ensures HasEmptyLineRun(edi) ==> ValidationErrors(edi)[0] == EmptyLinesFound
    ensures forall k :: 0 < k < |ValidationErrors(edi)| ==> ValidationErrors(edi)[k] != EmptyLinesFound
  {
    var lines := MessageLines(edi);
    var pre := if SearchEmptyLines(edi, 0) then [EmptyLinesFound] else [];
    var quotes := QuoteErrors(lines, |lines|);
    var scan := Scan(lines, 0, 1);
    var errs := ValidationErrors(edi);
    assert errs == pre + quotes + scan;
    SearchFindsEmptyLineRun(edi);
    QuoteErrorsSpec(lines, |lines|);
    ScanSpec(lines, 0, 1);
    var tail := quotes + scan;
    AppendAssoc(pre, quotes, scan);
    assert EmptyLinesFound !in tail;
    forall k | 0 < k < |errs| ensures errs[k] != EmptyLinesFound {
      TailIndex(pre, tail, k);
    }
  }

  lemma QuoteLayout(edi: string)
    ensures forall m :: 1 <= m <= |MessageLines(edi)| ==>
              (LineError(m, MissingQuote) in ValidationErrors(edi) <==> !EndsWith(MessageLines(edi)[m - 1], "'"))
  {
    var lines := MessageLines(edi);
    var pre := if SearchEmptyLines(edi, 0) then [EmptyLinesFound] else [];
    var quotes := QuoteErrors(lines, |lines|);
    var scan := Scan(lines, 0, 1);
    var errs := ValidationErrors(edi);
    assert errs == pre + quotes + scan;
    QuoteErrorsSpec(lines, |lines|);
    ScanSpec(lines, 0, 1);
    forall m | 1 <= m <= |lines|
      ensures LineError(m, MissingQuote) in errs <==> LineError(m, MissingQuote) in quotes
    {
      assert LineError(m, MissingQuote) !in scan;
    }
  }

  /** A text that is blank and has no empty-line run is valid (the empty
      text in particular). */
  lemma BlankMessageIsValid(edi: string)
    requires forall i :: 0 <= i < |edi| ==> IsWhitespace(edi[i])
    requires !HasEmptyLineRun(edi)
    ensures MessageLines(edi) == []
    ensures ValidationErrors(edi) == []
  {
    SearchFindsEmptyLineRun(edi);
    assert QuoteErrors([], 0) == [];
  }

  /** A LIN mismatch is reported as the block's first diagnostic, and the walk
      goes on with the next block under the next number. */
  lemma LinMismatchReported(lines: seq<string>, i: nat, n: nat)
    requires i < |lines| && !StartsWith(lines[i], LinPrefix(n))
    ensures Scan(lines, i, n)[0] == LineError(i + 1, ExpectedLin(n))
    ensures Scan(lines, i, n)[|Block(lines, i, n).0|..] == Scan(lines, Block(lines, i, n).1, n + 1)
  {
    var b := Block(lines, i, n);
    assert Scan(lines, i, n) == b.0 + Scan(lines, b.1, n + 1);
    assert b.0[0] == LineError(i + 1, ExpectedLin(n));
  }

  /** What `PAC_PATTERN.match` accepts: `PAC+`, one or more digits, `+1'`, and
      anything after; the captured number is the digits' value. */
  lemma PacPatternDigits(ds: string, rest: string)
    requires ds != [] && IsDigits(ds)
    ensures PacPatternNumber("PAC+" + ds + "+1'" + rest) == Some(DigitsValue(ds))
  {
    var tail := "+1'" + rest;
    var line := "PAC+" + ds + "+1'" + rest;
    assert line == "PAC+" + (ds + tail);
    assert StartsWith(line, "PAC+");
    assert line[4..] == ds + tail;
    DigitRunStops(ds, tail);
    assert line[4 + |ds|..] == tail;
    assert StartsWith(tail, "+1'");
  }

  /** ... and nothing else. */
  lemma PacPatternOnly(line: string)
    requires PacPatternNumber(line).Some?
    ensures exists ds, rest :: ds != [] && IsDigits(ds) && line == "PAC+" + ds + "+1'" + rest
              && PacPatternNumber(line).value == DigitsValue(ds)
  {
    var ds := DigitRun(line[4..]);
    var rest := line[4 + |ds| + 3..];
    assert line == "PAC+" + ds + "+1'" + rest;
  }

  /** A package-count line `PAC+<digits>+1'...` is accepted when the number is
      at least 1 and reported as below one when it is 0. */
  lemma CountLineDigits(ds: string, rest: string, lineNum: nat)
    requires ds != [] && IsDigits(ds)
    ensures CountLineErrors("PAC+" + ds + "+1'" + rest, lineNum)
            == if DigitsValue(ds) == 0 then [LineError(lineNum, PacCountBelowOne)] else []
  {
    var line := "PAC+" + ds + "+1'" + rest;
    PacPatternDigits(ds, rest);
    assert OccursAt(line, "+1'", 4 + |ds|);
  }

  /** A package-count line with a symbol where the digits belong, such as
      `PAC+-5+1'`, is reported as not a positive integer. */
  lemma CountLineSymbol(x: string, lineNum: nat)
    requires x != [] && !IsAsciiDigit(x[0])
    requires Contains("PAC+" + x, "+1'")
    ensures CountLineErrors("PAC+" + x, lineNum) == [LineError(lineNum, PacCountNotPositiveInteger)]
  {
    assert ("PAC+" + x)[4..] == x;
  }

  /** The reference check of `RFF+<q>:<v>`: the value checked is `v` without
      its trailing quotes; it must be non-empty, and any character other than
      an ASCII letter or digit is reported in the set. */
  lemma ReferenceLineVerdict(q: Qualifier, v: string, lineNum: nat)
    ensures ReferenceQualifier("RFF+" + QualifierCode(q) + ":" + v) == Some(q)
    ensures ReferenceErrors("RFF+" + QualifierCode(q) + ":" + v, lineNum, q)
            == var c := TrimEndChar(v, '\'');
               if c == [] then [LineError(lineNum, EmptyReference(q))]
               else if IsAsciiAlnumString(c) then []
               else [LineError(lineNum, InvalidReferenceChars(q, InvalidChars(c)))]
  {
    ReferenceHeadQualifier(q, v);
    ReferenceValueAfter(q, v);
    InvalidCharsEmpty(TrimEndChar(v, '\''));
  }

  /** Every trailing quote is removed before the check, so `RFF+AAQ:ABC''` is
      accepted like `RFF+AAQ:ABC'`. */
  lemma TrailingQuotesIgnored(q: Qualifier, v: string, quotes: string, lineNum: nat)
    requires v != [] && IsAsciiAlnumString(v)
    requires forall i :: 0 <= i < |quotes| ==> quotes[i] == '\''
    ensures ReferenceErrors("RFF+" + QualifierCode(q) + ":" + (v + quotes), lineNum, q) == []
  {
    ReferenceLineVerdict(q, v + quotes, lineNum);
    TrimEndCharAppend(v, quotes, '\'');
  }

  /** A PCI line followed by a line that is neither a reference nor another
      PCI line: the problem is reported on that line, and the cursor stops on
      it, so it is read again as the next block's LIN line. */
  lemma PciWithoutReference(lines: seq<string>, i: nat)
    requires i + 1 < |lines| && StartsWith(lines[i], "PCI+1")
    requires ReferenceQualifier(lines[i + 1]).None? && !StartsWith(lines[i + 1], "PCI+1")
    ensures PciPairs(lines, i) == ([LineError(i + 2, ExpectedReference)], i + 1)
  {
    assert PciPairs(lines, i + 1) == ([], i + 1);
    assert [LineError(i + 2, ExpectedReference)] + [] == [LineError(i + 2, ExpectedReference)];
  }

  /** A PCI line as the last line: "unexpected end", reported on that line. */
  lemma PciAtEnd(lines: seq<string>)
    requires lines != [] && StartsWith(lines[|lines| - 1], "PCI+1")
    ensures PciPairs(lines, |lines| - 1) == ([LineError(|lines|, UnexpectedEndAfterPci)], |lines|)
  {
  }
}
