/**
 * The cargo item record shared by the generator, the decoder and the form
 * rules (`CargoItem` in services/edi_generator.py and services/edi_decoder.py).
 *
 * The source spells the same fields differently from file to file:
 * `number_of_packages` / `package_count`, `master_bill_of_lading_number` /
 * `master_bill_number`, `house_bill_of_lading_number` / `house_bill_number`.
 * One record with one name per field stands for all of them.
 */
module Cargo {
  import opened Wrappers
  import opened Text

  /** Every field is optional here: the decoder builds a record field by field
      (an absent key is None) and the form rules check the two required fields
      for None. A record that has both required fields is a `CargoItem`. */
  datatype Item = Item(
    cargoType: Option<string>,
    packageCount: Option<int>,
    containerNumber: Option<string>,
    masterBillNumber: Option<string>,
    houseBillNumber: Option<string>)

  /** The empty in-progress record (the decoder's `{}`). */
  const NoFields: Item := Item(None, None, None, None, None)

  predicate HasRequiredFields(item: Item) {
    item.cargoType.Some? && item.packageCount.Some?
  }

  /** A record that the `CargoItem` model accepts: `cargo_type` and the
      package count are present. */
  type CargoItem = item: Item | HasRequiredFields(item)
    witness Item(Some("LCL"), Some(1), None, None, None)

  /** The reference qualifiers of the RFF segment: container number, master
      bill of lading, house bill of lading. */
  datatype Qualifier = AAQ | MB | BH

  function QualifierCode(q: Qualifier): string {
    match q
    case AAQ => "AAQ"
    case MB => "MB"
    case BH => "BH"
  }

  /** The optional field a qualifier stands for. */
  function Reference(item: Item, q: Qualifier): Option<string> {
    match q
    case AAQ => item.containerNumber
    case MB => item.masterBillNumber
    case BH => item.houseBillNumber
  }

  /** `item` with the field of qualifier `q` set to `value`. */
  function WithReference(item: Item, q: Qualifier, value: string): (r: Item)
    ensures Reference(r, q) == Some(value)
    ensures forall q' :: q' != q ==> Reference(r, q') == Reference(item, q')
    ensures r.cargoType == item.cargoType && r.packageCount == item.packageCount
  {
    match q
    case AAQ => item.(containerNumber := Some(value))
    case MB => item.(masterBillNumber := Some(value))
    case BH => item.(houseBillNumber := Some(value))
  }

  /** The qualifier of an `RFF+AAQ:`, `RFF+MB:` or `RFF+BH:` line. */
  function ReferenceQualifier(line: string): Option<Qualifier> {
    if StartsWith(line, "RFF+AAQ:") then Some(AAQ)
    else if StartsWith(line, "RFF+MB:") then Some(MB)
    else if StartsWith(line, "RFF+BH:") then Some(BH)
    else None
  }

  /** A line is a reference line exactly when it starts with `RFF+`, a
      qualifier code and ':', and then it is one of that qualifier. */
  lemma ReferenceQualifierSpec(line: string)
    ensures ReferenceQualifier(line).Some? <==> exists q :: StartsWith(line, "RFF+" + QualifierCode(q) + ":")
    ensures ReferenceQualifier(line).Some? ==> StartsWith(line, "RFF+" + QualifierCode(ReferenceQualifier(line).value) + ":")
  {
    assert "RFF+" + QualifierCode(AAQ) + ":" == "RFF+AAQ:";
    assert "RFF+" + QualifierCode(MB) + ":" == "RFF+MB:";
    assert "RFF+" + QualifierCode(BH) + ":" == "RFF+BH:";
  }

  /** `RFF+<q>:<v>` is a reference line of `q`. */
  lemma ReferenceHeadQualifier(q: Qualifier, v: string)
    ensures ReferenceQualifier("RFF+" + QualifierCode(q) + ":" + v) == Some(q)
  {
    var line := "RFF+" + QualifierCode(q) + ":" + v;
    match q
    case AAQ => assert StartsWith(line, "RFF+AAQ:");
    case MB => assert line[4] == 'M' && StartsWith(line, "RFF+MB:");
    case BH => assert line[4] == 'B' && StartsWith(line, "RFF+BH:");
  }

  /** The value of `RFF+<q>:<v>`, the text after its first ':', is `v`. */
  lemma ReferenceValueAfter(q: Qualifier, v: string)
    ensures After("RFF+" + QualifierCode(q) + ":" + v, ":") == v
  {
    var head := "RFF+" + QualifierCode(q);
    var line := head + ":" + v;
    assert StartsWith(line, head + [':']);
    IndexOfAfterHead(line, head, ':');
  }
}
