/**
 * The three services side by side: what services/edi_generator.py writes,
 * services/edi_validator.py accepts, and services/edi_decoder.py reads back.
 * None of the services calls another; these are the properties a client that
 * chains them relies on.
 */
module Codec {
  import opened Wrappers
  import opened Text
  import opened Cargo
  import opened EdiGenerator
  import opened EdiValidator
  import opened EdiDecoder

  // ---------------------------------------------------------------------------
  // Escaping

  /** `unescape_edi_content` undoes `escape_edi_content` on every text, one
      that holds the release character `?` included. */
  lemma {:induction false} UnescapeEscape(s: string)
    ensures Unescape(Escape(s)) == s
    decreases |s|
  {
    if s != [] {
      var rest := Escape(s[1..]);
      UnescapeEscape(s[1..]);
      if s[0] == '\'' {
        var e := "?'" + rest;
        assert Escape(s) == e;
        UnescapePair(e);
        assert e[2..] == rest;
      } else {
        var e := [s[0]] + rest;
        assert Escape(s) == e;
        EscapeHead(s[1..]);
        UnescapeOther(e);
        assert e[1..] == rest;
      }
      assert s == [s[0]] + s[1..];
    }
  }

  /** An escaped text never starts with a bare quote. */
  lemma EscapeHead(t: string)
    ensures Escape(t) == [] || Escape(t)[0] != '\''
  {
    if t != [] {
      var head := if t[0] == '\'' then "?'" else [t[0]];
      assert Escape(t) == head + Escape(t[1..]);
      assert Escape(t)[0] == head[0];
    }
  }

  /** Escaping adds only `?` and `'`: any other character is in the escaped
      text exactly when it is in the text. */
  lemma {:induction false} EscapeKeeps(text: string, c: char)
    requires c != '\'' && c != '?'
    ensures c in Escape(text) <==> c in text
    decreases |text|
  {
    if text != [] {
      EscapeKeeps(text[1..], c);
      var head := if text[0] == '\'' then "?'" else [text[0]];
      assert Escape(text) == head + Escape(text[1..]);
      assert text == [text[0]] + text[1..];
    }
  }

  /** An escaped text ends with `?` only when the text does. */
  lemma {:induction false} EscapeLast(text: string)
    requires text != [] && text[|text| - 1] != '?'
    ensures Escape(text) != [] && Escape(text)[|Escape(text)| - 1] != '?'
    decreases |text|
  {
    var head := if text[0] == '\'' then "?'" else [text[0]];
    assert Escape(text) == head + Escape(text[1..]);
    if |text| > 1 {
      EscapeLast(text[1..]);
    }
  }

  /** The generator does not escape the release character itself, so a value
      that ends with `?` runs into the segment terminator: `RFF+AAQ:A?'` is
      read back as the value `A'`, not `A?'`. */
  lemma TrailingReleaseMisread()
    ensures Escape("A?") == "A?"
    ensures Unescape(Escape("A?") + "'") == "A'"
  {
    assert Unescape("'") == "'";
    assert ("A?" + "'")[1..] == "?'";
    assert "?'"[2..] == [];
  }

  // ---------------------------------------------------------------------------
  // The generated lines

  /** A line the reading side takes as it is: not blank, without a line feed,
      and with a visible character at each end. */
  predicate Clean(line: string) {
    Trimmed(line) && '\n' !in line
  }

  predicate AllClean(lines: seq<string>) {
    forall k :: 0 <= k < |lines| ==> Clean(lines[k])
  }

  lemma CleanAppend(a: seq<string>, b: seq<string>)
    requires AllClean(a) && AllClean(b)
    ensures AllClean(a + b)
  {
  }

  /** What the generator needs of an item for each of its segments to stay
      one line: no line feed in the cargo type or in a reference. */
  predicate LineSafe(item: CargoItem) {
    && '\n' !in item.cargoType.value
    && forall q :: Reference(item, q).None? || '\n' !in Reference(item, q).value
  }

  lemma DigitsHaveNoNewline(ds: string)
    requires forall k :: 0 <= k < |ds| ==> ds[k] == '-' || IsAsciiDigit(ds[k])
    ensures '\n' !in ds && '+' !in ds
  {
  }

  lemma OptionalClean(q: Qualifier, field: Option<string>)
    requires field.None? || '\n' !in field.value
    ensures AllClean(OptionalLines(q, field))
  {
    if field.Some? && field.value != [] {
      PciClean();
      RffClean(q, field.value);
    }
  }

  lemma PciClean()
    ensures Clean(PciSegment)
  {
    assert forall k :: 0 <= k < |PciSegment| ==> PciSegment[k] != '\n';
  }

  lemma RffClean(q: Qualifier, v: string)
    requires '\n' !in v
    ensures Clean(RffSegment(q, v))
  {
    EscapeKeeps(v, '\n');
    var head := "RFF+" + QualifierCode(q) + ":";
    var line := RffSegment(q, v);
    RffHeadClean(q);
    assert line == head + Escape(v) + "'";
    assert line[0] == 'R' && line[|line| - 1] == '\'';
  }

  lemma RffHeadClean(q: Qualifier)
    ensures '\n' !in "RFF+" + QualifierCode(q) + ":"
  {
    assert '\n' !in QualifierCode(q) by {
      match q
      case AAQ => assert QualifierCode(q) == "AAQ";
      case MB => assert QualifierCode(q) == "MB";
      case BH => assert QualifierCode(q) == "BH";
    }
  }

  lemma LinClean(n: nat)
    ensures Clean(LinSegment(n))
  {
    var ds := NatToString(n);
    DigitsHaveNoNewline(ds);
    assert LinSegment(n) == "LIN+" + ds + "+I'";
    assert LinSegment(n)[0] == 'L';
  }

  lemma PacTypeClean(t: string)
    requires '\n' !in t
    ensures Clean(PacTypeSegment(t))
  {
    assert PacTypeSegment(t) == "PAC+++" + t + ":67:95'";
    assert PacTypeSegment(t)[0] == 'P';
  }

  lemma PacCountClean(c: int)
    ensures Clean(PacCountSegment(c))
  {
    var count := IntToString(c);
    IntToStringChars(c);
    DigitsHaveNoNewline(count);
    assert PacCountSegment(c) == "PAC+" + count + "+1'";
    assert PacCountSegment(c)[0] == 'P';
  }

  /** Every line of a generated block is clean. */
  lemma SegmentClean(item: CargoItem, n: nat)
    requires LineSafe(item)
    ensures AllClean(SegmentLines(item, n))
  {
    var t := item.cargoType.value;
    var c := item.packageCount.value;
    LinClean(n);
    PacTypeClean(t);
    PacCountClean(c);
    var header := [LinSegment(n), PacTypeSegment(t), PacCountSegment(c)];
    assert Reference(item, AAQ) == item.containerNumber;
    assert Reference(item, MB) == item.masterBillNumber;
    assert Reference(item, BH) == item.houseBillNumber;
    var o1 := OptionalLines(AAQ, item.containerNumber);
    var o2 := OptionalLines(MB, item.masterBillNumber);
    var o3 := OptionalLines(BH, item.houseBillNumber);
    OptionalClean(AAQ, item.containerNumber);
    OptionalClean(MB, item.masterBillNumber);
    OptionalClean(BH, item.houseBillNumber);
    CleanAppend(header, o1);
    CleanAppend(header + o1, o2);
    CleanAppend(header + o1 + o2, o3);
  }

  lemma {:induction false} NumberedClean(items: seq<CargoItem>, n: nat)
    requires forall k :: 0 <= k < |items| ==> LineSafe(items[k])
    ensures AllClean(NumberedLines(items, n))
    decreases |items|
  {
    if items != [] {
      SegmentClean(items[0], n);
      NumberedClean(items[1..], n + 1);
      CleanAppend(SegmentLines(items[0], n), NumberedLines(items[1..], n + 1));
    }
  }

  /** Dropping blank lines and stripping the others keeps clean lines. */
  lemma {:induction false} StripNonBlankClean(ls: seq<string>)
    requires AllClean(ls)
    ensures StripNonBlank(ls) == ls
    decreases |ls|
  {
    if ls != [] {
      StripKeeps(ls[0]);
      StripNonBlankClean(ls[1..]);
      assert [ls[0]] + ls[1..] == ls;
    }
  }

  /** In a join of clean lines every line feed is followed by a visible
      character, so the text has no run of blank lines. */
  lemma NoEmptyLineRun(ls: seq<string>)
    requires AllClean(ls)
    ensures !HasEmptyLineRun(Join(ls))
  {
    var s := Join(ls);
    forall i, j | 0 <= i < j < |s| && s[i] == '\n' && s[j] == '\n'
      ensures exists m :: i < m < j && !IsWhitespace(s[m])
    {
      JoinNewlineFollowedByText(ls, i);
      assert !IsWhitespace(s[i + 1]);
    }
  }

  /** A '\n'-join of clean lines is its own strip and splits back into the
      lines. */
  lemma JoinRead(lines: seq<string>)
    requires lines != [] && AllClean(lines)
    ensures Strip(Join(lines)) == Join(lines)
    ensures SplitLines(Join(lines)) == lines
  {
    JoinEnds(lines);
    SplitJoin(lines);
  }

  /** The generated text is read back as exactly the generated lines:
      stripping it changes nothing, splitting it on '\n' gives the lines,
      the validator drops none of them as blank, and it has no run of blank
      lines. */
  lemma GeneratedLinesRead(items: seq<CargoItem>)
    requires forall k :: 0 <= k < |items| ==> LineSafe(items[k])
    ensures Strip(GenerateFullEdi(items)) == GenerateFullEdi(items)
    ensures SplitLines(GenerateFullEdi(items)) == NumberedLines(items, 1)
    ensures MessageLines(GenerateFullEdi(items)) == NumberedLines(items, 1)
    ensures !HasEmptyLineRun(GenerateFullEdi(items))
  {
    var lines := NumberedLines(items, 1);
    FullEdiLines(items);
    NumberedClean(items, 1);
    NoEmptyLineRun(lines);
    StripNonBlankClean(lines);
    if items != [] {
      JoinRead(lines);
    }
  }

  // ---------------------------------------------------------------------------
  // The validator accepts what the generator writes

  /** What the validator needs of an item for its block to pass: a cargo type
      without a line feed, a count of at least 1, and each reference absent,
      empty, or made of ASCII letters and digits. */
  predicate Checkable(item: CargoItem) {
    && '\n' !in item.cargoType.value
    && item.packageCount.value >= 1
    && forall q :: Reference(item, q).None? || IsAsciiAlnumString(Reference(item, q).value)
  }

  lemma CheckableLineSafe(item: CargoItem)
    requires Checkable(item)
    ensures LineSafe(item)
  {
    forall q | Reference(item, q).Some?
      ensures '\n' !in Reference(item, q).value
    {
      var v := Reference(item, q).value;
      assert forall k :: 0 <= k < |v| ==> v[k] != '\n';
    }
  }

  /** Lines whose every one ends with `'` draw no terminator diagnostic. */
  lemma {:induction false} QuotesAllPresent(lines: seq<string>, n: nat)
    requires n <= |lines|
    requires forall k :: 0 <= k < n ==> EndsWith(lines[k], "'")
    ensures QuoteErrors(lines, n) == []
  {
    if n > 0 {
      QuotesAllPresent(lines, n - 1);
    }
  }

  /** The generated lines draw no terminator diagnostic. */
  lemma GeneratedQuotes(items: seq<CargoItem>)
    ensures QuoteErrors(NumberedLines(items, 1), |NumberedLines(items, 1)|) == []
  {
    var lines := NumberedLines(items, 1);
    NumberedTerminated(items, 1);
    assert forall k :: 0 <= k < |lines| ==> IsTerminated(lines[k]);
    QuotesAllPresent(lines, |lines|);
  }

  /** The RFF line of an ASCII alphanumeric reference passes the reference
      check. */
  lemma RffAccepted(q: Qualifier, v: string, lineNum: nat)
    requires v != [] && IsAsciiAlnumString(v)
    ensures ReferenceQualifier(RffSegment(q, v)) == Some(q)
    ensures ReferenceErrors(RffSegment(q, v), lineNum, q) == []
  {
    assert '\'' !in v by {
      assert forall k :: 0 <= k < |v| ==> v[k] != '\'';
    }
    RffShape(q, v);
    ReferenceHeadQualifier(q, v + "'");
    TrailingQuotesIgnored(q, v, "'", lineNum);
  }

  /** Regrouping a concatenation of four runs of lines. */
  lemma Regroup(a: seq<string>, b: seq<string>, c: seq<string>, d: seq<string>)
    ensures a + (b + c) + d == (a + b) + c + d
  {
  }

  /** The `k`th reference's pair sits at lines `2k` and `2k + 1`. */
  lemma {:induction false} ReferenceLinesAt(refs: seq<(Qualifier, string)>, k: nat)
    requires k < |refs|
    ensures ReferenceLines(refs)[2 * k] == PciSegment
    ensures ReferenceLines(refs)[2 * k + 1] == RffSegment(refs[k].0, refs[k].1)
    decreases k
  {
    var rest := ReferenceLines(refs[1..]);
    assert ReferenceLines(refs) == [PciSegment, RffSegment(refs[0].0, refs[0].1)] + rest;
    if k > 0 {
      var j := 2 * (k - 1);
      ReferenceLinesAt(refs[1..], k - 1);
      assert refs[1..][k - 1] == refs[k];
      PairThen(PciSegment, RffSegment(refs[0].0, refs[0].1), rest, j);
      PairThen(PciSegment, RffSegment(refs[0].0, refs[0].1), rest, j + 1);
    }
  }

  /** Past a leading pair, the lines are those of the rest, two on. */
  lemma PairThen<T>(x: T, y: T, rest: seq<T>, j: nat)
    requires j < |rest|
    ensures ([x, y] + rest)[j + 2] == rest[j]
  {
  }

  /** Turn `k` of the inner loop from cursor `i` moves the cursor two lines
      on and reports nothing. */
  predicate QuietTurn(lines: seq<string>, i: nat, k: nat) {
    PciPairs(lines, i + 2 * k) == PciPairs(lines, i + 2 * k + 2)
  }

  /** Quiet turns pass the inner loop, which stops right after them. */
  lemma PairsAccepted(lines: seq<string>, i: nat, count: nat)
    requires forall k :: 0 <= k < count ==> QuietTurn(lines, i, k)
    requires i + 2 * count <= |lines|
    requires i + 2 * count == |lines| || !StartsWith(lines[i + 2 * count], "PCI+1")
    ensures PciPairs(lines, i) == ([], i + 2 * count)
  {
    QuietTurns(lines, i, count);
    PciPairsStop(lines, i + 2 * count);
  }

  /** `count` quiet turns leave the outcome of the inner loop unchanged. */
  lemma QuietTurns(lines: seq<string>, i: nat, count: nat)
    requires forall k :: 0 <= k < count ==> QuietTurn(lines, i, k)
    ensures PciPairs(lines, i) == PciPairs(lines, i + 2 * count)
  {
    var pairs := (j: nat) => PciPairs(lines, j);
    forall k | 0 <= k < count ensures Flat(pairs, i, k) {
      assert QuietTurn(lines, i, k);
    }
    Chain(pairs, i, count);
  }

  /** `f` takes the same value at the `k`th and the next stop of a walk in
      steps of two from `i`. */
  ghost predicate Flat<T>(f: nat -> T, i: nat, k: nat) {
    f(i + 2 * k) == f(i + 2 * k + 2)
  }

  /** A value that does not change from one stop to the next is the same at
      the start and at the end of the walk. */
  lemma {:induction false} Chain<T>(f: nat -> T, i: nat, count: nat)
    requires forall k :: 0 <= k < count ==> Flat(f, i, k)
    ensures f(i) == f(i + 2 * count)
    decreases count
  {
    if count > 0 {
      Chain(f, i, count - 1);
      assert Flat(f, i, count - 1);
      assert i + 2 * (count - 1) + 2 == i + 2 * count;
    }
  }

  /** The inner loop does nothing at the end of the lines or on a line that
      is no PCI line. */
  lemma PciPairsStop(lines: seq<string>, i: nat)
    requires i == |lines| || (i < |lines| && !StartsWith(lines[i], "PCI+1"))
    ensures PciPairs(lines, i) == ([], i)
  {
  }

  /** Lines `i + 2k` and `i + 2k + 1` hold the pair of the `k`th reference. */
  predicate PairAt(lines: seq<string>, i: nat, refs: seq<(Qualifier, string)>, k: nat) {
    && k < |refs| && i + 2 * k + 1 < |lines|
    && lines[i + 2 * k] == PciSegment
    && lines[i + 2 * k + 1] == RffSegment(refs[k].0, refs[k].1)
  }

  /** The reference lines placed between `pre` and `post` hold every pair. */
  lemma PairsAt(lines: seq<string>, pre: seq<string>, refs: seq<(Qualifier, string)>, post: seq<string>)
    requires lines == pre + ReferenceLines(refs) + post
    ensures forall k :: 0 <= k < |refs| ==> PairAt(lines, |pre|, refs, k)
  {
    forall k | 0 <= k < |refs|
      ensures PairAt(lines, |pre|, refs, k)
    {
      PciLineAt(lines, pre, refs, post, k);
      RffLineAt(lines, pre, refs, post, k);
    }
  }

  lemma PciLineAt(lines: seq<string>, pre: seq<string>, refs: seq<(Qualifier, string)>, post: seq<string>, k: nat)
    requires lines == pre + ReferenceLines(refs) + post
    requires k < |refs|
    ensures |pre| + 2 * k + 1 < |lines| && lines[|pre| + 2 * k] == PciSegment
  {
    var j := 2 * k;
    ReferenceLinesAt(refs, k);
    ElementAt(lines, pre, ReferenceLines(refs), post, j);
  }

  lemma RffLineAt(lines: seq<string>, pre: seq<string>, refs: seq<(Qualifier, string)>, post: seq<string>, k: nat)
    requires lines == pre + ReferenceLines(refs) + post
    requires k < |refs|
    ensures |pre| + 2 * k + 1 < |lines| && lines[|pre| + 2 * k + 1] == RffSegment(refs[k].0, refs[k].1)
  {
    var j := 2 * k + 1;
    ReferenceLinesAt(refs, k);
    ElementAt(lines, pre, ReferenceLines(refs), post, j);
  }

  lemma ElementAt<T>(s: seq<T>, pre: seq<T>, mid: seq<T>, post: seq<T>, j: nat)
    requires s == pre + mid + post && j < |mid|
    ensures |pre| + j < |s| && s[|pre| + j] == mid[j]
  {
  }

  /** The pairs of ASCII alphanumeric references are quiet turns. */
  lemma PairsQuiet(lines: seq<string>, i: nat, refs: seq<(Qualifier, string)>)
    requires forall k :: 0 <= k < |refs| ==> PairAt(lines, i, refs, k)
    requires forall k :: 0 <= k < |refs| ==> refs[k].1 != [] && IsAsciiAlnumString(refs[k].1)
    ensures forall k :: 0 <= k < |refs| ==> QuietTurn(lines, i, k)
  {
    forall k | 0 <= k < |refs|
      ensures QuietTurn(lines, i, k)
    {
      PairQuiet(lines, i, refs, k);
    }
  }

  lemma PairQuiet(lines: seq<string>, i: nat, refs: seq<(Qualifier, string)>, k: nat)
    requires PairAt(lines, i, refs, k)
    requires refs[k].1 != [] && IsAsciiAlnumString(refs[k].1)
    ensures QuietTurn(lines, i, k)
  {
    var j := i + 2 * k;
    var q := refs[k].0;
    var v := refs[k].1;
    assert lines[j] == PciSegment;
    assert lines[j + 1] == RffSegment(q, v);
    PairAccepted(lines, j, q, v);
  }

  /** A PCI line followed by the reference line of an ASCII alphanumeric
      value is a quiet turn of the inner loop. */
  lemma PairAccepted(lines: seq<string>, i: nat, q: Qualifier, v: string)
    requires i + 1 < |lines| && lines[i] == PciSegment && lines[i + 1] == RffSegment(q, v)
    requires v != [] && IsAsciiAlnumString(v)
    ensures PciPairs(lines, i) == PciPairs(lines, i + 2)
  {
    RffAccepted(q, v, i + 2);
    assert StartsWith(PciSegment, "PCI+1");
    PciPairStep(lines, i, q);
    assert [] + PciPairs(lines, i + 2).0 == PciPairs(lines, i + 2).0;
  }

  /** One turn of the inner loop over a PCI line and a reference line. */
  lemma PciPairStep(lines: seq<string>, i: nat, q: Qualifier)
    requires i + 1 < |lines| && StartsWith(lines[i], "PCI+1") && ReferenceQualifier(lines[i + 1]) == Some(q)
    ensures PciPairs(lines, i) == (ReferenceErrors(lines[i + 1], i + 2, q) + PciPairs(lines, i + 2).0, PciPairs(lines, i + 2).1)
  {
  }

  lemma CountShape(count: string)
    ensures "PAC+" + count + "+1" + "'" == "PAC+" + count + "+1'" + []
  {
    var a := "PAC+" + count;
    assert (a + "+1") + "'" == a + "+1'";
  }

  /** The count line of a count of at least 1 passes the count check. */
  lemma CountAccepted(c: int, lineNum: nat)
    requires c >= 1
    ensures CountLineErrors(PacCountSegment(c), lineNum) == []
  {
    var ds := NatToString(c);
    assert IntToString(c) == ds;
    CountShape(ds);
    CountLineDigits(ds, [], lineNum);
  }

  /** The three mandatory lines of a checkable item pass the LIN, PAC+++ and
      count checks. */
  lemma HeaderAccepted(lines: seq<string>, i: nat, item: CargoItem, n: nat)
    requires Checkable(item)
    requires i + 2 < |lines| && lines[i] == LinSegment(n)
    requires lines[i + 1] == PacTypeSegment(item.cargoType.value) && lines[i + 2] == PacCountSegment(item.packageCount.value)
    ensures LinErrors(lines, i, n) == [] && PacTypeErrors(lines, i + 1) == [] && PacCountErrors(lines, i + 2) == []
  {
    CountAccepted(item.packageCount.value, i + 3);
  }

  lemma Assoc(a: seq<string>, b: seq<string>, c: seq<string>, d: seq<string>)
    ensures a + b + c + d == a + (b + c + d)
  {
  }

  /** A block is the three mandatory lines, then the pairs of its references. */
  lemma SegmentShape(item: CargoItem, n: nat)
    ensures SegmentLines(item, n)
            == [LinSegment(n), PacTypeSegment(item.cargoType.value), PacCountSegment(item.packageCount.value)]
               + ReferenceLines(References(item))
  {
    var header := [LinSegment(n), PacTypeSegment(item.cargoType.value), PacCountSegment(item.packageCount.value)];
    var o1 := OptionalLines(AAQ, item.containerNumber);
    var o2 := OptionalLines(MB, item.masterBillNumber);
    var o3 := OptionalLines(BH, item.houseBillNumber);
    SegmentAsReferences(item);
    Assoc(header, o1, o2, o3);
  }

  /** The block the generator writes for a checkable item passes the
      validator's block check, which then stands on the line after it. */
  lemma BlockAccepted(lines: seq<string>, pre: seq<string>, item: CargoItem, n: nat, post: seq<string>)
    requires Checkable(item)
    requires lines == pre + SegmentLines(item, n) + post
    requires post == [] || !StartsWith(post[0], "PCI+1")
    ensures |pre| < |lines| && Block(lines, |pre|, n).0 == [] && Block(lines, |pre|, n).1 == |pre| + |SegmentLines(item, n)|
  {
    var refs := References(item);
    var p := |pre| + 3;
    var e := |pre| + |SegmentLines(item, n)|;
    BlockLayout(lines, pre, item, n, post, p, e);
    ReferencesAlnum(item);
    BlockChecks(lines, |pre|, item, n, p, refs, e);
  }

  /** Where the generator puts the lines of a block: the three mandatory
      lines, the pairs of the item's references, then no PCI line. */
  lemma BlockLayout(lines: seq<string>, pre: seq<string>, item: CargoItem, n: nat, post: seq<string>, p: nat, e: nat)
    requires lines == pre + SegmentLines(item, n) + post
    requires post == [] || !StartsWith(post[0], "PCI+1")
    requires p == |pre| + 3 && e == |pre| + |SegmentLines(item, n)|
    ensures |pre| + 2 < |lines| && lines[|pre|] == LinSegment(n)
    ensures lines[|pre| + 1] == PacTypeSegment(item.cargoType.value) && lines[|pre| + 2] == PacCountSegment(item.packageCount.value)
    ensures forall k :: 0 <= k < |References(item)| ==> PairAt(lines, p, References(item), k)
    ensures e == p + 2 * |References(item)| && e <= |lines|
    ensures e == |lines| || !StartsWith(lines[e], "PCI+1")
  {
    var seg := SegmentLines(item, n);
    var refs := References(item);
    var header := [LinSegment(n), PacTypeSegment(item.cargoType.value), PacCountSegment(item.packageCount.value)];
    var pairs := ReferenceLines(refs);
    SegmentShape(item, n);
    assert |seg| == 3 + 2 * |refs|;
    HeaderAt(lines, pre, item, n, pairs, post);
    Regroup(pre, header, pairs, post);
    PairsAt(lines, pre + header, refs, post);
    StopAfter(lines, pre + seg, post);
  }

  /** The checks of one turn of the outer loop over a block laid out as the
      generator writes it: the three mandatory lines, then the pairs of
      ASCII alphanumeric references, then no PCI line. */
  lemma BlockChecks(lines: seq<string>, i: nat, item: CargoItem, n: nat, p: nat, refs: seq<(Qualifier, string)>, e: nat)
    requires Checkable(item) && p == i + 3
    requires i + 2 < |lines| && lines[i] == LinSegment(n)
    requires lines[i + 1] == PacTypeSegment(item.cargoType.value) && lines[i + 2] == PacCountSegment(item.packageCount.value)
    requires forall k :: 0 <= k < |refs| ==> PairAt(lines, p, refs, k)
    requires forall k :: 0 <= k < |refs| ==> refs[k].1 != [] && IsAsciiAlnumString(refs[k].1)
    requires e == p + 2 * |refs| && e <= |lines|
    requires e == |lines| || !StartsWith(lines[e], "PCI+1")
    ensures Block(lines, i, n) == ([], e)
  {
    HeaderAccepted(lines, i, item, n);
    PairsChecks(lines, p, refs, e);
    BlockPasses(lines, i, n, e);
  }

  /** The inner loop passes the pairs of ASCII alphanumeric references and
      stops on the first line that is no PCI line. */
  lemma PairsChecks(lines: seq<string>, p: nat, refs: seq<(Qualifier, string)>, e: nat)
    requires forall k :: 0 <= k < |refs| ==> PairAt(lines, p, refs, k)
    requires forall k :: 0 <= k < |refs| ==> refs[k].1 != [] && IsAsciiAlnumString(refs[k].1)
    requires e == p + 2 * |refs| && e <= |lines|
    requires e == |lines| || !StartsWith(lines[e], "PCI+1")
    ensures PciPairs(lines, p) == ([], e)
  {
    PairsQuiet(lines, p, refs);
    PairsAccepted(lines, p, |refs|);
  }

  /** The references of a checkable item are non-empty ASCII alphanumeric
      text. */
  lemma ReferencesAlnum(item: CargoItem)
    requires Checkable(item)
    ensures forall k :: 0 <= k < |References(item)| ==> References(item)[k].1 != [] && IsAsciiAlnumString(References(item)[k].1)
  {
    var refs := References(item);
    forall k | 0 <= k < |refs|
      ensures refs[k].1 != [] && IsAsciiAlnumString(refs[k].1)
    {
      assert Reference(item, refs[k].0) == Some(refs[k].1);
    }
  }

  /** The three mandatory lines at the start of a block. */
  lemma HeaderAt(lines: seq<string>, pre: seq<string>, item: CargoItem, n: nat, more: seq<string>, post: seq<string>)
    requires lines == pre + ([LinSegment(n), PacTypeSegment(item.cargoType.value), PacCountSegment(item.packageCount.value)] + more) + post
    ensures |pre| + 2 < |lines| && lines[|pre|] == LinSegment(n)
    ensures lines[|pre| + 1] == PacTypeSegment(item.cargoType.value) && lines[|pre| + 2] == PacCountSegment(item.packageCount.value)
  {
    var header := [LinSegment(n), PacTypeSegment(item.cargoType.value), PacCountSegment(item.packageCount.value)];
    HeadAt(lines, pre, header, more, post);
    assert header[0] == LinSegment(n) && header[1] == PacTypeSegment(item.cargoType.value);
    assert header[2] == PacCountSegment(item.packageCount.value);
  }

  lemma HeadAt<T>(s: seq<T>, pre: seq<T>, head: seq<T>, more: seq<T>, post: seq<T>)
    requires s == pre + (head + more) + post
    ensures |pre| + |head| <= |s|
    ensures forall j :: 0 <= j < |head| ==> s[|pre| + j] == head[j]
  {
  }

  /** The line after `prefix` is the first line of `post`, when there is one. */
  lemma StopAfter(lines: seq<string>, prefix: seq<string>, post: seq<string>)
    requires lines == prefix + post
    requires post == [] || !StartsWith(post[0], "PCI+1")
    ensures |prefix| <= |lines|
    ensures |prefix| == |lines| || !StartsWith(lines[|prefix|], "PCI+1")
  {
  }

  /** A block whose mandatory lines pass and whose pairs pass up to `e` is
      accepted, and the walk goes on at `e`. */
  lemma BlockPasses(lines: seq<string>, i: nat, n: nat, e: nat)
    requires i + 2 < |lines|
    requires LinErrors(lines, i, n) == [] && PacTypeErrors(lines, i + 1) == [] && PacCountErrors(lines, i + 2) == []
    requires PciPairs(lines, i + 3) == ([], e)
    ensures Block(lines, i, n) == ([], e)
  {
    var none: seq<Diagnostic> := [];
    assert none + none + none + none == none;
  }

  /** A LIN line is no PCI line. */
  lemma LinNotPci(n: nat)
    ensures !StartsWith(LinSegment(n), "PCI+1")
  {
    assert LinSegment(n)[1] == 'I';
  }

  /** The block walk finds nothing to report in the generated blocks,
      whatever lines come before them. */
  lemma {:induction false} ScanNumbered(pre: seq<string>, items: seq<CargoItem>, n: nat)
    requires forall k :: 0 <= k < |items| ==> Checkable(items[k])
    ensures Scan(pre + NumberedLines(items, n), |pre|, n) == []
    decreases |items|
  {
    if items == [] {
      assert |pre + NumberedLines(items, n)| == |pre|;
    } else {
      var seg := SegmentLines(items[0], n);
      ScanNumbered(pre + seg, items[1..], n + 1);
      assert Checkable(items[0]);
      FirstBlockQuiet(pre, items, n, |pre + seg|);
    }
  }

  /** The first generated block has nothing to report, so the walk reports
      what it reports on the blocks after it. */
  lemma FirstBlockQuiet(pre: seq<string>, items: seq<CargoItem>, n: nat, e: nat)
    requires items != [] && Checkable(items[0]) && e == |pre + SegmentLines(items[0], n)|
    requires Scan(pre + SegmentLines(items[0], n) + NumberedLines(items[1..], n + 1), e, n + 1) == []
    ensures Scan(pre + NumberedLines(items, n), |pre|, n) == []
  {
    var rest := NumberedLines(items[1..], n + 1);
    NumberedSplit(pre, items, n);
    if items[1..] != [] {
      LinNotPci(n + 1);
    }
    BlockThenQuiet(pre + NumberedLines(items, n), pre, items[0], n, rest, e);
  }

  lemma NumberedSplit(pre: seq<string>, items: seq<CargoItem>, n: nat)
    requires items != []
    ensures pre + NumberedLines(items, n) == pre + SegmentLines(items[0], n) + NumberedLines(items[1..], n + 1)
  {
    var seg := SegmentLines(items[0], n);
    var rest := NumberedLines(items[1..], n + 1);
    assert NumberedLines(items, n) == seg + rest;
    AppendAssoc(pre, seg, rest);
  }

  /** A generated block followed by lines with nothing to report. */
  lemma BlockThenQuiet(lines: seq<string>, pre: seq<string>, item: CargoItem, n: nat, post: seq<string>, e: nat)
    requires Checkable(item)
    requires lines == pre + SegmentLines(item, n) + post
    requires post == [] || !StartsWith(post[0], "PCI+1")
    requires e == |pre| + |SegmentLines(item, n)| && Scan(lines, e, n + 1) == []
    ensures Scan(lines, |pre|, n) == []
  {
    BlockAccepted(lines, pre, item, n, post);
    ScanQuiet(lines, |pre|, n, e);
  }

  /** A block with nothing to report, followed by blocks with nothing to
      report, leaves nothing to report. */
  lemma ScanQuiet(lines: seq<string>, i: nat, n: nat, e: nat)
    requires i < |lines| && Block(lines, i, n).0 == [] && Block(lines, i, n).1 == e
    requires Scan(lines, e, n + 1) == []
    ensures Scan(lines, i, n) == []
  {
    ScanUnfold(lines, i, n);
    var none: seq<Diagnostic> := [];
    assert none + none == none;
  }

  /** `validate_edi_message` returns `(True, [])` on the text
      `generate_full_edi` writes for checkable items. */
  lemma GeneratedTextValidates(items: seq<CargoItem>)
    requires forall k :: 0 <= k < |items| ==> Checkable(items[k])
    ensures ValidationErrors(GenerateFullEdi(items)) == []
  {
    forall k | 0 <= k < |items| ensures LineSafe(items[k]) {
      CheckableLineSafe(items[k]);
    }
    var edi := GenerateFullEdi(items);
    var lines := NumberedLines(items, 1);
    GeneratedLinesRead(items);
    SearchFindsEmptyLineRun(edi);
    GeneratedQuotes(items);
    ScanNumbered([], items, 1);
    EmptyPrefix(lines);
    NoDiagnostics(edi, lines);
  }

  /** A message whose lines draw no diagnostic from either loop, and that has
      no run of empty lines, draws none at all. */
  lemma NoDiagnostics(edi: string, lines: seq<string>)
    requires MessageLines(edi) == lines && !SearchEmptyLines(edi, 0)
    requires QuoteErrors(lines, |lines|) == [] && Scan(lines, 0, 1) == []
    ensures ValidationErrors(edi) == []
  {
  }

  lemma EmptyPrefix<T>(s: seq<T>)
    ensures [] + s == s
  {
  }

  lemma EmptySuffix<T>(s: seq<T>)
    ensures s + [] == s
  {
  }

  // ---------------------------------------------------------------------------
  // The decoder reads back what the generator writes

  /** What the decoder needs of an item to read its block back: a cargo type
      without a line feed, ':' or '+', and references without a line feed
      that do not end with the release character `?`. */
  predicate Readable(item: CargoItem) {
    && LineSafe(item)
    && ':' !in item.cargoType.value && '+' !in item.cargoType.value
    && forall q :: Reference(item, q).None? || !EndsWith(Reference(item, q).value, "?")
  }

  /** The value the decoder reads back for a reference given to the
      generator: the value with the segment terminator `'` still attached,
      or nothing when no line was written for it. */
  function ReadBack(field: Option<string>): (r: Option<string>)
    ensures r.Some? <==> field.Some? && field.value != []
  {
    if field.Some? && field.value != [] then Some(field.value + "'") else None
  }

  function Decoded(item: CargoItem): (r: CargoItem)
    ensures r.cargoType == item.cargoType && r.packageCount == item.packageCount
    ensures forall q :: Reference(r, q) == ReadBack(Reference(item, q))
  {
    Item(item.cargoType, item.packageCount, ReadBack(item.containerNumber),
      ReadBack(item.masterBillNumber), ReadBack(item.houseBillNumber))
  }

  function DecodedAll(items: seq<CargoItem>): (r: seq<CargoItem>)
    ensures |r| == |items|
    ensures forall k :: 0 <= k < |items| ==> r[k] == Decoded(items[k])
    decreases |items|
  {
    if items == [] then [] else [Decoded(items[0])] + DecodedAll(items[1..])
  }

  lemma PacTypeShape(t: string)
    ensures PacTypeSegment(t) == "PAC+++" + t + ":" + "67:95'"
  {
    var a := "PAC+++" + t;
    assert (a + ":67:95") + "'" == a + ":67:95'";
    assert (a + ":") + "67:95'" == a + ":67:95'";
  }

  lemma PacCountShape(count: string)
    ensures "PAC+" + count + "+1" + "'" == "PAC+" + count + "+" + "1'"
  {
    var a := "PAC+" + count;
    assert (a + "+1") + "'" == a + "+1'";
    assert (a + "+") + "1'" == a + "+1'";
  }

  /** The LIN line flushes the previous record, the two PAC lines set the
      cargo type and the count. */
  lemma HeaderRead(d: Decoder, t: string, c: int, n: nat)
    requires Flush(d).Success?
    requires ':' !in t && '+' !in t
    ensures Run(d, [LinSegment(n), PacTypeSegment(t), PacCountSegment(c)])
            == Success(Decoder(Flush(d).value, Item(Some(t), Some(c), None, None, None)))
  {
    var lines := [LinSegment(n), PacTypeSegment(t), PacCountSegment(c)];
    var x := Flush(d).value;
    var d1 := Decoder(x, NoFields);
    var d2 := Decoder(x, Item(Some(t), None, None, None, None));
    LinRead(d, lines, n);
    TypeRead(d1, lines, t);
    assert d1.(current := d1.current.(cargoType := Some(t))) == d2;
    CountRead(d2, lines, c);
  }

  lemma LinRead(d: Decoder, lines: seq<string>, n: nat)
    requires Flush(d).Success? && lines != [] && lines[0] == LinSegment(n)
    ensures Run(d, lines) == Run(Decoder(Flush(d).value, NoFields), lines[1..])
  {
    StripKeeps(LinSegment(n));
    RunLinLine(d, lines, 0);
    assert lines[0..] == lines;
  }

  lemma TypeRead(d: Decoder, lines: seq<string>, t: string)
    requires 1 < |lines| && lines[1] == PacTypeSegment(t)
    requires ':' !in t && '+' !in t
    ensures Run(d, lines[1..]) == Run(d.(current := d.current.(cargoType := Some(t))), lines[2..])
  {
    PacTypeShape(t);
    PacTypeLine(d, t, "67:95'");
    RunStep(d, lines, 1);
  }

  lemma CountRead(d: Decoder, lines: seq<string>, c: int)
    requires |lines| == 3 && lines[2] == PacCountSegment(c)
    ensures Run(d, lines[2..]) == Success(d.(current := d.current.(packageCount := Some(c))))
  {
    CountStep(d, c);
    RunStep(d, lines, 2);
    assert lines[3..] == [];
  }

  /** The count line sets the package count to the count written. */
  lemma CountStep(d: Decoder, c: int)
    ensures Step(d, PacCountSegment(c)) == Success(d.(current := d.current.(packageCount := Some(c))))
  {
    var count := IntToString(c);
    IntToStringChars(c);
    ParseIntToString(c);
    DigitsHaveNoNewline(count);
    PacCountShape(count);
    PacCountLine(d, count, "1'");
  }

  /** The decoder skips the `PCI+1'` line. */
  lemma PciIgnored()
    ensures !Recognized(Strip(PciSegment))
  {
    StripKeeps(PciSegment);
    assert PciSegment[1] == 'C';
  }

  /** The RFF value of a reference that does not end with `?` is read back
      as the reference plus the terminator. */
  lemma ValueReadBack(v: string)
    requires v != [] && !EndsWith(v, "?")
    ensures Unescape(Escape(v) + "'") == v + "'"
  {
    assert v[|v| - 1..] == [v[|v| - 1]];
    EscapeLast(v);
    UnescapeClosingQuote(Escape(v));
    UnescapeEscape(v);
  }

  lemma RffShape(q: Qualifier, v: string)
    ensures RffSegment(q, v) == "RFF+" + QualifierCode(q) + ":" + (Escape(v) + "'")
  {
    var a := "RFF+" + QualifierCode(q) + ":";
    assert RffSegment(q, v) == (a + Escape(v)) + "'";
  }

  /** The RFF line of a present reference sets that reference to the value
      plus the terminator. */
  lemma RffLineRead(d: Decoder, q: Qualifier, v: string)
    requires v != [] && !EndsWith(v, "?")
    ensures Step(d, RffSegment(q, v)) == Success(d.(current := WithReference(d.current, q, v + "'")))
  {
    ValueReadBack(v);
    RffShape(q, v);
    ReferenceLine(d, q, Escape(v) + "'");
  }

  /** A skipped line changes nothing. */
  lemma SkipLine(d: Decoder, skipped: string, line: string)
    requires !Recognized(Strip(skipped))
    ensures Run(d, [skipped, line]) == Run(d, [line])
  {
    var lines := [skipped, line];
    RunIgnoredLine(d, lines, 0);
    assert lines[0..] == lines;
    assert lines[1..] == [line];
  }

  /** A single line read successfully. */
  lemma OneLine(d: Decoder, line: string)
    requires Step(d, line).Success?
    ensures Run(d, [line]) == Step(d, line)
  {
    var lines := [line];
    RunStep(d, lines, 0);
    assert lines[0..] == lines;
    assert lines[1..] == [];
  }

  /** The PCI/RFF pair of a present reference: the PCI line is skipped, the
      RFF line sets the reference. */
  lemma PairRead(d: Decoder, q: Qualifier, v: string)
    requires v != [] && !EndsWith(v, "?")
    ensures Run(d, [PciSegment, RffSegment(q, v)]) == Success(d.(current := WithReference(d.current, q, v + "'")))
  {
    PciIgnored();
    RffLineRead(d, q, v);
    SkipLine(d, PciSegment, RffSegment(q, v));
    OneLine(d, RffSegment(q, v));
  }

  /** The lines of an optional field: a present reference is set to the value
      plus the terminator; an absent or empty one leaves the record. */
  lemma OptionalRead(x: seq<CargoItem>, cur: Item, q: Qualifier, field: Option<string>)
    requires field.None? || !EndsWith(field.value, "?")
    ensures Run(Decoder(x, cur), OptionalLines(q, field))
            == Success(Decoder(x, if field.Some? && field.value != [] then WithReference(cur, q, field.value + "'") else cur))
  {
    if field.Some? && field.value != [] {
      PairRead(Decoder(x, cur), q, field.value);
    }
  }

  /** A generated block, read from any state that can be flushed, flushes
      that state and leaves the decoded item in progress. */
  lemma BlockRead(d: Decoder, item: CargoItem, n: nat)
    requires Flush(d).Success? && Readable(item)
    ensures Run(d, SegmentLines(item, n)) == Success(Decoder(Flush(d).value, Decoded(item)))
  {
    var t := item.cargoType.value;
    var c := item.packageCount.value;
    var x := Flush(d).value;
    var header := [LinSegment(n), PacTypeSegment(t), PacCountSegment(c)];
    var o1 := OptionalLines(AAQ, item.containerNumber);
    var o2 := OptionalLines(MB, item.masterBillNumber);
    var o3 := OptionalLines(BH, item.houseBillNumber);
    assert SegmentLines(item, n) == header + o1 + o2 + o3;
    HeaderRead(d, t, c, n);
    assert Reference(item, AAQ) == item.containerNumber;
    assert Reference(item, MB) == item.masterBillNumber;
    assert Reference(item, BH) == item.houseBillNumber;
    var base := Item(Some(t), Some(c), None, None, None);
    OptionalRead(x, base, AAQ, item.containerNumber);
    RunAppend(d, header, o1);
    var cur1 := base.(containerNumber := ReadBack(item.containerNumber));
    OptionalRead(x, cur1, MB, item.masterBillNumber);
    RunAppend(d, header + o1, o2);
    var cur2 := cur1.(masterBillNumber := ReadBack(item.masterBillNumber));
    OptionalRead(x, cur2, BH, item.houseBillNumber);
    RunAppend(d, header + o1 + o2, o3);
  }

  /** Reading the generated blocks one after another appends their decoded
      items, in order, after what the starting state flushes. */
  lemma {:induction false} RunNumbered(d: Decoder, items: seq<CargoItem>, n: nat)
    requires Flush(d).Success?
    requires forall k :: 0 <= k < |items| ==> Readable(items[k])
    ensures Run(d, NumberedLines(items, n)).Success?
    ensures Flush(Run(d, NumberedLines(items, n)).value) == Success(Flush(d).value + DecodedAll(items))
    decreases |items|
  {
    if items == [] {
      EmptySuffix(Flush(d).value);
    } else {
      var mid := Decoder(Flush(d).value, Decoded(items[0]));
      assert Readable(items[0]);
      FirstBlockRead(d, items, n);
      RunNumbered(mid, items[1..], n + 1);
      DecodedAfter(Flush(d).value, items);
    }
  }

  /** Reading the first generated block moves the decoder to the state that
      holds its decoded item. */
  lemma FirstBlockRead(d: Decoder, items: seq<CargoItem>, n: nat)
    requires Flush(d).Success? && items != [] && Readable(items[0])
    ensures Run(d, NumberedLines(items, n)) == Run(Decoder(Flush(d).value, Decoded(items[0])), NumberedLines(items[1..], n + 1))
    ensures Flush(Decoder(Flush(d).value, Decoded(items[0]))) == Success(Flush(d).value + [Decoded(items[0])])
  {
    var seg := SegmentLines(items[0], n);
    var rest := NumberedLines(items[1..], n + 1);
    assert NumberedLines(items, n) == seg + rest;
    BlockRead(d, items[0], n);
    RunAppend(d, seg, rest);
  }

  lemma DecodedAfter(x: seq<CargoItem>, items: seq<CargoItem>)
    requires items != []
    ensures x + [Decoded(items[0])] + DecodedAll(items[1..]) == x + DecodedAll(items)
  {
    var all := DecodedAll(items);
    assert all == [Decoded(items[0])] + DecodedAll(items[1..]);
    ConsAssoc(x, Decoded(items[0]), DecodedAll(items[1..]), all);
  }

  lemma ConsAssoc<T>(x: seq<T>, h: T, t: seq<T>, all: seq<T>)
    requires all == [h] + t
    ensures x + [h] + t == x + all
  {
  }

  /** `decode_edi_to_items` on the text `generate_full_edi` writes for
      readable items gives back as many items, in order, with the same cargo
      type and count; each reference written is read back with its
      terminator, and an empty one is read back as absent. */
  lemma GeneratedTextDecodes(items: seq<CargoItem>)
    requires forall k :: 0 <= k < |items| ==> Readable(items[k])
    ensures Decode(GenerateFullEdi(items)) == Success(DecodedAll(items))
    ensures |Decode(GenerateFullEdi(items)).value| == |items|
    ensures forall k :: 0 <= k < |items| ==>
              && Decode(GenerateFullEdi(items)).value[k].cargoType == items[k].cargoType
              && Decode(GenerateFullEdi(items)).value[k].packageCount == items[k].packageCount
              && forall q :: Reference(Decode(GenerateFullEdi(items)).value[k], q) == ReadBack(Reference(items[k], q))
  {
    DecodesToAll(items);
    var all := DecodedAll(items);
    forall k | 0 <= k < |items|
      ensures all[k].cargoType == items[k].cargoType && all[k].packageCount == items[k].packageCount
      ensures forall q :: Reference(all[k], q) == ReadBack(Reference(items[k], q))
    {
      assert all[k] == Decoded(items[k]);
    }
  }

  lemma DecodesToAll(items: seq<CargoItem>)
    requires forall k :: 0 <= k < |items| ==> Readable(items[k])
    ensures Decode(GenerateFullEdi(items)) == Success(DecodedAll(items))
  {
    GeneratedLinesRead(items);
    RunNumbered(Start, items, 1);
    EmptyPrefix(DecodedAll(items));
  }
}
