/**
 * services/edi_generator.py: serialises a list of cargo items into the
 * line-oriented text format, one block of segments per item.
 */
module EdiGenerator {
  import opened Wrappers
  import opened Text
  import opened Cargo

  /** `escape_edi_content`: every `'` becomes `?'`. Text without a quote is
      unchanged; text with a quote gains a `?`. */
  function Escape(text: string): (r: string)
    ensures '\'' !in text ==> r == text
    ensures ('\'' in text ==> '?' in r) && ('?' in text ==> '?' in r)
    ensures r == [] <==> text == []
    decreases |text|
  {
    if text == [] then []
    else
      var head := if text[0] == '\'' then "?'" else [text[0]];
      var r := head + Escape(text[1..]);
      assert text[0] in text && ('\'' in text[1..] ==> '\'' in text);
      assert text == [text[0]] + text[1..];
      r
  }

  /** On one character: a quote becomes `?'`, anything else is kept. */
  lemma EscapeChar(c: char)
    ensures Escape([c]) == if c == '\'' then "?'" else [c]
  {
  }

  /** Escaping works character by character: escaping a concatenation
      concatenates the escaped parts. With `EscapeChar` this fixes `Escape`
      on every text. */
  lemma {:induction false} EscapeAppend(a: string, b: string)
    ensures Escape(a + b) == Escape(a) + Escape(b)
    decreases |a|
  {
    if a == [] {
      assert a + b == b;
    } else {
      var head := if a[0] == '\'' then "?'" else [a[0]];
      assert (a + b)[0] == a[0] && (a + b)[1..] == a[1..] + b;
      EscapeAppend(a[1..], b);
      assert Escape(a + b) == head + (Escape(a[1..]) + Escape(b));
    }
  }

  /** A segment line: non-empty, ending with the terminator `'`. */
  predicate IsTerminated(line: string) {
    line != [] && EndsWith(line, "'")
  }

  predicate AllTerminated(lines: seq<string>) {
    forall k :: 0 <= k < |lines| ==> IsTerminated(lines[k])
  }

  lemma Terminated(body: string)
    ensures IsTerminated(body + "'")
  {
  }

  lemma AllTerminatedAppend(a: seq<string>, b: seq<string>)
    requires AllTerminated(a) && AllTerminated(b)
    ensures AllTerminated(a + b)
  {
  }

  function LinSegment(index: nat): string
  {
    "LIN+" + NatToString(index) + "+I" + "'"
  }

  function PacTypeSegment(cargoType: string): string
  {
    "PAC+++" + cargoType + ":67:95" + "'"
  }

  function PacCountSegment(count: int): string
  {
    "PAC+" + IntToString(count) + "+1" + "'"
  }

  const PciSegment: string := "PCI+1'"

  function RffSegment(q: Qualifier, value: string): string
  {
    "RFF+" + QualifierCode(q) + ":" + Escape(value) + "'"
  }

  /** One `if item.<field>:` step of `generate_edi_segment`: a PCI line and an
      RFF line when the field is present and non-empty, nothing otherwise. */
  function OptionalLines(q: Qualifier, field: Option<string>): (r: seq<string>)
    ensures r == [] <==> field.None? || field.value == []
  {
    if field.Some? && field.value != [] then [PciSegment, RffSegment(q, field.value)] else []
  }

  /** The lines `generate_edi_segment(item, index)` joins. */
  function SegmentLines(item: CargoItem, index: nat): seq<string> {
    var header := [LinSegment(index), PacTypeSegment(item.cargoType.value), PacCountSegment(item.packageCount.value)];
    header + OptionalLines(AAQ, item.containerNumber) + OptionalLines(MB, item.masterBillNumber)
    + OptionalLines(BH, item.houseBillNumber)
  }

  /** Every segment line the generator writes ends with the terminator. */
  lemma SegmentTerminated(item: CargoItem, index: nat)
    ensures AllTerminated(SegmentLines(item, index))
  {
    var header := [LinSegment(index), PacTypeSegment(item.cargoType.value), PacCountSegment(item.packageCount.value)];
    Terminated("LIN+" + NatToString(index) + "+I");
    Terminated("PAC+++" + item.cargoType.value + ":67:95");
    Terminated("PAC+" + IntToString(item.packageCount.value) + "+1");
    var container := OptionalLines(AAQ, item.containerNumber);
    var masterBill := OptionalLines(MB, item.masterBillNumber);
    var houseBill := OptionalLines(BH, item.houseBillNumber);
    OptionalTerminated(AAQ, item.containerNumber);
    OptionalTerminated(MB, item.masterBillNumber);
    OptionalTerminated(BH, item.houseBillNumber);
    AllTerminatedAppend(header, container);
    AllTerminatedAppend(header + container, masterBill);
    AllTerminatedAppend(header + container + masterBill, houseBill);
  }

  lemma OptionalTerminated(q: Qualifier, field: Option<string>)
    ensures AllTerminated(OptionalLines(q, field))
  {
    if field.Some? && field.value != [] {
      Terminated("PCI+1");
      assert "PCI+1" + "'" == PciSegment;
      Terminated("RFF+" + QualifierCode(q) + ":" + Escape(field.value));
    }
  }

  /** `generate_edi_segment`. */
  function GenerateEdiSegment(item: CargoItem, index: nat): string {
    Join(SegmentLines(item, index))
  }

  /** `generate_edi_segment` as the source writes it: a local list of lines
      that starts with the three mandatory segments and grows by a PCI/RFF
      pair for each present optional field, then joined. */
  method BuildSegment(item: CargoItem, index: nat) returns (segment: string)
    ensures segment == GenerateEdiSegment(item, index)
  {
    var lines := [LinSegment(index), PacTypeSegment(item.cargoType.value), PacCountSegment(item.packageCount.value)];
    ghost var header := lines;
    if item.containerNumber.Some? && item.containerNumber.value != [] {
      lines := lines + [PciSegment, RffSegment(AAQ, item.containerNumber.value)];
    }
    assert lines == header + OptionalLines(AAQ, item.containerNumber);
    ghost var contained := lines;
    if item.masterBillNumber.Some? && item.masterBillNumber.value != [] {
      lines := lines + [PciSegment, RffSegment(MB, item.masterBillNumber.value)];
    }
    assert lines == contained + OptionalLines(MB, item.masterBillNumber);
    ghost var billed := lines;
    if item.houseBillNumber.Some? && item.houseBillNumber.value != [] {
      lines := lines + [PciSegment, RffSegment(BH, item.houseBillNumber.value)];
    }
    assert lines == billed + OptionalLines(BH, item.houseBillNumber);
    assert lines == SegmentLines(item, index);
    segment := Join(lines);
  }

  /** The list comprehension of `generate_full_edi`: the block of each item,
      numbered from `first` in list order. */
  function Blocks(items: seq<CargoItem>, first: nat): (r: seq<string>)
    ensures |r| == |items|
    decreases |items|
  {
    if items == [] then [] else [GenerateEdiSegment(items[0], first)] + Blocks(items[1..], first + 1)
  }

  /** The item at position `k` gets the block numbered `first + k`. */
  lemma BlockNumbering(items: seq<CargoItem>, first: nat)
    ensures forall k :: 0 <= k < |items| ==> Blocks(items, first)[k] == GenerateEdiSegment(items[k], first + k)
  {
    forall k | 0 <= k < |items| ensures Blocks(items, first)[k] == GenerateEdiSegment(items[k], first + k) {
      BlockAt(items, first, k);
    }
  }

  lemma {:induction false} BlockAt(items: seq<CargoItem>, first: nat, k: nat)
    requires k < |items|
    ensures Blocks(items, first)[k] == GenerateEdiSegment(items[k], first + k)
    decreases k
  {
    if k > 0 {
      BlockAt(items[1..], first + 1, k - 1);
      assert Blocks(items, first)[k] == Blocks(items[1..], first + 1)[k - 1];
      assert items[1..][k - 1] == items[k];
    }
  }

  /** `generate_full_edi`: the blocks of the items, numbered from 1, joined by
      '\n'. */
  function GenerateFullEdi(items: seq<CargoItem>): string {
    Join(Blocks(items, 1))
  }

  // ---------------------------------------------------------------------------
  // The blocks as one list of lines

  /** The references an item emits, in the fixed order container, master bill,
      house bill: those present and non-empty. */
  function References(item: Item): (r: seq<(Qualifier, string)>)
    ensures |r| <= 3
    ensures forall k :: 0 <= k < |r| ==> r[k].1 != [] && Reference(item, r[k].0) == Some(r[k].1)
  {
    (if item.containerNumber.Some? && item.containerNumber.value != [] then [(AAQ, item.containerNumber.value)] else [])
    + (if item.masterBillNumber.Some? && item.masterBillNumber.value != [] then [(MB, item.masterBillNumber.value)] else [])
    + (if item.houseBillNumber.Some? && item.houseBillNumber.value != [] then [(BH, item.houseBillNumber.value)] else [])
  }

  /** The PCI/RFF line pairs of a list of references. */
  function ReferenceLines(refs: seq<(Qualifier, string)>): (r: seq<string>)
    ensures |r| == 2 * |refs|
    decreases |refs|
  {
    if refs == [] then [] else [PciSegment, RffSegment(refs[0].0, refs[0].1)] + ReferenceLines(refs[1..])
  }

  lemma ReferenceLinesAppend(a: seq<(Qualifier, string)>, b: seq<(Qualifier, string)>)
    ensures ReferenceLines(a + b) == ReferenceLines(a) + ReferenceLines(b)
    decreases |a|
  {
    if a == [] {
      assert a + b == b;
    } else {
      var pair := [PciSegment, RffSegment(a[0].0, a[0].1)];
      assert (a + b)[0] == a[0];
      assert (a + b)[1..] == a[1..] + b;
      ReferenceLinesAppend(a[1..], b);
      calc {
        ReferenceLines(a + b);
        pair + ReferenceLines(a[1..] + b);
        pair + (ReferenceLines(a[1..]) + ReferenceLines(b));
        (pair + ReferenceLines(a[1..])) + ReferenceLines(b);
        ReferenceLines(a) + ReferenceLines(b);
      }
    }
  }

  /** The three conditional appends of `generate_edi_segment` emit exactly the
      PCI/RFF pairs of `References(item)`. */
  lemma SegmentAsReferences(item: Item)
    ensures OptionalLines(AAQ, item.containerNumber) + OptionalLines(MB, item.masterBillNumber)
            + OptionalLines(BH, item.houseBillNumber) == ReferenceLines(References(item))
  {
    var a := if item.containerNumber.Some? && item.containerNumber.value != [] then [(AAQ, item.containerNumber.value)] else [];
    var b := if item.masterBillNumber.Some? && item.masterBillNumber.value != [] then [(MB, item.masterBillNumber.value)] else [];
    var c := if item.houseBillNumber.Some? && item.houseBillNumber.value != [] then [(BH, item.houseBillNumber.value)] else [];
    ReferenceLinesAppend(a, b);
    ReferenceLinesAppend(a + b, c);
    OptionalAsReferences(AAQ, item.containerNumber);
    OptionalAsReferences(MB, item.masterBillNumber);
    OptionalAsReferences(BH, item.houseBillNumber);
  }

  /** A block opens with its LIN line and the two PAC lines, and has two more
      lines for each present, non-empty reference: 3 + 2 * |References(item)|
      in all. */
  lemma SegmentLayout(item: CargoItem, index: nat)
    ensures |SegmentLines(item, index)| == 3 + 2 * |References(item)|
    ensures SegmentLines(item, index)[..3]
            == [LinSegment(index), PacTypeSegment(item.cargoType.value), PacCountSegment(item.packageCount.value)]
    ensures SegmentLines(item, index)[3..] == ReferenceLines(References(item))
  {
    var header := [LinSegment(index), PacTypeSegment(item.cargoType.value), PacCountSegment(item.packageCount.value)];
    var refs := OptionalLines(AAQ, item.containerNumber) + OptionalLines(MB, item.masterBillNumber)
                + OptionalLines(BH, item.houseBillNumber);
    SegmentAsReferences(item);
    SegmentParts(item, index, header, refs);
    ConcatParts(header, refs);
  }

  lemma SegmentParts(item: CargoItem, index: nat, header: seq<string>, refs: seq<string>)
    requires header == [LinSegment(index), PacTypeSegment(item.cargoType.value), PacCountSegment(item.packageCount.value)]
    requires refs == OptionalLines(AAQ, item.containerNumber) + OptionalLines(MB, item.masterBillNumber)
                     + OptionalLines(BH, item.houseBillNumber)
    ensures SegmentLines(item, index) == header + refs
  {
  }

  /** The two parts of a concatenation are found again by slicing. */
  lemma ConcatParts<T>(a: seq<T>, b: seq<T>)
    ensures |a + b| == |a| + |b| && (a + b)[..|a|] == a && (a + b)[|a|..] == b
  {
  }

  lemma OptionalAsReferences(q: Qualifier, field: Option<string>)
    ensures ReferenceLines(if field.Some? && field.value != [] then [(q, field.value)] else [])
            == OptionalLines(q, field)
  {
    if field.Some? && field.value != [] {
      var one := [(q, field.value)];
      assert ReferenceLines(one) == [PciSegment, RffSegment(q, field.value)] + ReferenceLines(one[1..]);
    }
  }

  /** The lines of the blocks of `items`, numbered from `first`. */
  function NumberedLines(items: seq<CargoItem>, first: nat): (r: seq<string>)
    ensures items != [] ==> r != [] && r[0] == LinSegment(first)
    decreases |items|
  {
    if items == [] then [] else SegmentLines(items[0], first) + NumberedLines(items[1..], first + 1)
  }

  /** Every line of the generated text ends with the terminator. */
  lemma {:induction false} NumberedTerminated(items: seq<CargoItem>, first: nat)
    ensures AllTerminated(NumberedLines(items, first))
    decreases |items|
  {
    if items != [] {
      SegmentTerminated(items[0], first);
      NumberedTerminated(items[1..], first + 1);
      AllTerminatedAppend(SegmentLines(items[0], first), NumberedLines(items[1..], first + 1));
    }
  }

  /** Joining the blocks is joining all their lines at once. */
  lemma {:induction false} JoinOfBlocks(items: seq<CargoItem>, first: nat)
    ensures Join(Blocks(items, first)) == Join(NumberedLines(items, first))
    decreases |items|
  {
    if items != [] {
      var head := SegmentLines(items[0], first);
      var blocks := Blocks(items, first);
      assert blocks == [Join(head)] + Blocks(items[1..], first + 1);
      if |items| == 1 {
        assert NumberedLines(items, first) == head + [];
        assert head + [] == head;
      } else {
        var tail := NumberedLines(items[1..], first + 1);
        JoinOfBlocks(items[1..], first + 1);
        JoinAppend(head, tail);
        assert blocks[1..] == Blocks(items[1..], first + 1);
      }
    }
  }

  /** The generated text is the '\n'-join of all the blocks' lines; it is
      empty exactly when there are no items. */
  lemma FullEdiLines(items: seq<CargoItem>)
    ensures GenerateFullEdi(items) == Join(NumberedLines(items, 1))
    ensures GenerateFullEdi(items) == [] <==> items == []
  {
    JoinOfBlocks(items, 1);
    if items != [] {
      NumberedTerminated(items, 1);
      JoinEnds(NumberedLines(items, 1));
    }
  }
}
