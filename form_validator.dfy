/**
 * services/form_validator.py: the business rules a request's cargo items must
 * meet before a message is generated from them. The items are checked in
 * list order and normalised in place; the first item that breaks a rule
 * stops the check.
 *
 * Python's `str.isalnum` is Unicode-aware, so the character class it accepts
 * is a parameter `isAlnum` of the model rather than a fixed predicate.
 */
module FormValidator {
  import opened Wrappers
  import opened Text
  import opened Cargo

  /** The messages the validators raise `ValueError` with. */
  datatype FormError =
    | CargoTypeRequired                    // "cargo_type field required"
    | PackageCountRequired                 // "package_count field required"
    | InvalidCargoType                     // "Cargo type must be either LCL or FCL"
    | NonPositivePackageCount              // "Package count must be greater than 0"
    | InvalidNumberFormat(field: Qualifier) // "Invalid container / master bill / house bill number format"
    | EmptyItemList                        // "ensure this value has at least 1 items"

  /** The accepted cargo types, compared after `strip().upper()`. */
  const CargoTypes: seq<string> := ["LCL", "FCL", "FCX"]

  /** Python's `s.isalnum()`: non-empty, and every character alphanumeric. */
  predicate IsAlnumText(s: string, isAlnum: char -> bool) {
    s != [] && forall i :: 0 <= i < |s| ==> isAlnum(s[i])
  }

  /** An optional field the rules skip: `None`, or whitespace only. */
  predicate IsBlank(field: Option<string>) {
    field.None? || Strip(field.value) == []
  }

  // ---------------------------------------------------------------------------
  // One item

  /** One of the three optional-field checks: a non-blank value must be
      alphanumeric once stripped, and is stored stripped; None when it is not
      alphanumeric. */
  function CheckReference(item: Item, q: Qualifier, isAlnum: char -> bool): (r: Option<Item>)
    ensures r.None? <==> !IsBlank(Reference(item, q)) && !IsAlnumText(Strip(Reference(item, q).value), isAlnum)
    ensures r.Some? && IsBlank(Reference(item, q)) ==> r.value == item
    ensures r.Some? && !IsBlank(Reference(item, q)) ==> r.value == WithReference(item, q, Strip(Reference(item, q).value))
  {
    var field := Reference(item, q);
    if field.Some? && Strip(field.value) != [] then
      if IsAlnumText(Strip(field.value), isAlnum) then Some(WithReference(item, q, Strip(field.value)))
      else None
    else Some(item)
  }

  /** The three optional-field checks in the source's order (container,
      master bill, house bill), stopping at the first failure with the item
      as far as it was normalised. */
  function CheckReferences(typed: Item, isAlnum: char -> bool): (Item, Option<FormError>) {
    match CheckReference(typed, AAQ, isAlnum)
    case None => (typed, Some(InvalidNumberFormat(AAQ)))
    case Some(contained) =>
      match CheckReference(contained, MB, isAlnum)
      case None => (contained, Some(InvalidNumberFormat(MB)))
      case Some(billed) =>
        match CheckReference(billed, BH, isAlnum)
        case None => (billed, Some(InvalidNumberFormat(BH)))
        case Some(done) => (done, None)
  }

  /** The body of the `for item in items` loop on one item: the item as the
      loop leaves it, and the error it raises, if any. */
  function CheckItem(item: Item, isAlnum: char -> bool): (Item, Option<FormError>) {
    if item.cargoType.None? then (item, Some(CargoTypeRequired))
    else if item.packageCount.None? then (item, Some(PackageCountRequired))
    else
      var cargoType := ToUpper(Strip(item.cargoType.value));
      if cargoType !in CargoTypes then (item, Some(InvalidCargoType))
      else
        var typed := item.(cargoType := Some(cargoType));
        if item.packageCount.value <= 0 then (typed, Some(NonPositivePackageCount))
        else CheckReferences(typed, isAlnum)
  }

  // ---------------------------------------------------------------------------
  // The list

  /** The loop from position `k` on: the outcome and the list as it is left,
      with the items before the failing one normalised and the failing one as
      far as its check got. */
  function ValidateFrom(s: seq<Item>, k: nat, isAlnum: char -> bool): (r: (Outcome<FormError>, seq<Item>))
    ensures |r.1| == |s|
    decreases |s| - k
  {
    if k >= |s| then (Pass, s)
    else
      var (item, error) := CheckItem(s[k], isAlnum);
      if error.Some? then (Fail(error.value), s[k := item])
      else ValidateFrom(s[k := item], k + 1, isAlnum)
  }

  /** One of the three optional-field blocks of the loop, for the field of
      `q`: a non-blank value that is not alphanumeric once stripped fails the
      check and leaves the item as it is; otherwise a non-blank value is
      replaced by its stripped form. */
  method NormalizeReference(original: Item, q: Qualifier, isAlnum: char -> bool) returns (item: Item, ok: bool)
    ensures ok <==> CheckReference(original, q, isAlnum).Some?
    ensures ok ==> item == CheckReference(original, q, isAlnum).value
    ensures !ok ==> item == original
  {
    item := original;
    var field := Reference(item, q);
    if field.Some? && Strip(field.value) != [] {
      if !IsAlnumText(Strip(field.value), isAlnum) {
        return item, false;
      }
      item := WithReference(item, q, Strip(field.value));
    }
    return item, true;
  }

  /** The body of the loop of `validate_cargo_items` on one item, as the
      source writes it: each rule in turn, updating the item's fields as it
      goes and stopping at the first broken rule. */
  method NormalizeItem(original: Item, isAlnum: char -> bool) returns (item: Item, error: Option<FormError>)
    ensures (item, error) == CheckItem(original, isAlnum)
  {
    item := original;
    if item.cargoType.None? {
      return item, Some(CargoTypeRequired);
    }
    if item.packageCount.None? {
      return item, Some(PackageCountRequired);
    }
    var cargoType := ToUpper(Strip(item.cargoType.value));
    if cargoType !in CargoTypes {
      return item, Some(InvalidCargoType);
    }
    item := item.(cargoType := Some(cargoType));
    var packageCount := item.packageCount.value;
    if packageCount <= 0 {
      return item, Some(NonPositivePackageCount);
    }
    item := item.(packageCount := Some(packageCount));
    var ok;
    item, ok := NormalizeReference(item, AAQ, isAlnum);
    if !ok {
      return item, Some(InvalidNumberFormat(AAQ));
    }
    item, ok := NormalizeReference(item, MB, isAlnum);
    if !ok {
      return item, Some(InvalidNumberFormat(MB));
    }
    item, ok := NormalizeReference(item, BH, isAlnum);
    if !ok {
      return item, Some(InvalidNumberFormat(BH));
    }
    return item, None;
  }

  /** `validate_cargo_items`: a loop over the list that overwrites each item
      in place and returns at the first broken rule; later items are neither
      examined nor changed. */
  method ValidateCargoItems(items: array<Item>, isAlnum: char -> bool) returns (r: Outcome<FormError>)
    modifies items
    ensures (r, items[..]) == ValidateFrom(old(items[..]), 0, isAlnum)
  {
    for k := 0 to items.Length
      invariant ValidateFrom(old(items[..]), 0, isAlnum) == ValidateFrom(items[..], k, isAlnum)
    {
      ghost var before := items[..];
      var item, error := NormalizeItem(items[k], isAlnum);
      items[k] := item;
      if error.Some? {
        ItemFails(before, k, isAlnum, item, error.value);
        return Fail(error.value);
      }
      ItemPasses(before, k, isAlnum, item);
    }
    return Pass;
  }

  /** `EDIFormRequest`: pydantic runs the field validator on `cargo_items`
      first and the model validator that rejects an empty list after it. */
  method ValidateForm(items: array<Item>, isAlnum: char -> bool) returns (r: Outcome<FormError>)
    modifies items
    ensures items.Length == 0 ==> r == Fail(EmptyItemList)
    ensures items.Length > 0 ==> (r, items[..]) == ValidateFrom(old(items[..]), 0, isAlnum)
    ensures r.Pass? ==> items.Length > 0 && forall i :: 0 <= i < items.Length ==> WellFormed(items[i], isAlnum)
  {
    r := ValidateCargoItems(items, isAlnum);
    if r.Pass? && items.Length == 0 {
      r := Fail(EmptyItemList);
    }
    if r.Pass? {
      ValidatePasses(old(items[..]), isAlnum);
      assert forall i :: 0 <= i < items.Length ==> items[i] == items[..][i];
    }
  }

  // ---------------------------------------------------------------------------
  // Steps of the loop

  lemma ItemFails(s: seq<Item>, k: nat, isAlnum: char -> bool, item: Item, e: FormError)
    requires k < |s| && CheckItem(s[k], isAlnum) == (item, Some(e))
    ensures ValidateFrom(s, k, isAlnum) == (Fail(e), s[k := item])
  {
  }

  lemma ItemPasses(s: seq<Item>, k: nat, isAlnum: char -> bool, item: Item)
    requires k < |s| && CheckItem(s[k], isAlnum) == (item, None)
    ensures ValidateFrom(s, k, isAlnum) == ValidateFrom(s[k := item], k + 1, isAlnum)
  {
  }

  // ---------------------------------------------------------------------------
  // What the rules accept, stated field by field

  /** The field of `q` passes its check: blank, or alphanumeric once stripped. */
  predicate ReferenceAccepted(item: Item, q: Qualifier, isAlnum: char -> bool) {
    IsBlank(Reference(item, q)) || IsAlnumText(Strip(Reference(item, q).value), isAlnum)
  }

  /** An item that passes every rule. */
  predicate Acceptable(item: Item, isAlnum: char -> bool) {
    && item.cargoType.Some? && item.packageCount.Some?
    && ToUpper(Strip(item.cargoType.value)) in CargoTypes
    && item.packageCount.value > 0
    && forall q :: ReferenceAccepted(item, q, isAlnum)
  }

  /** A blank optional field is kept as it is, any other one stripped. */
  function NormalizedField(field: Option<string>): Option<string> {
    if IsBlank(field) then field else Some(Strip(field.value))
  }

  /** An acceptable item as the rules leave it. */
  function Normalized(item: Item): Item
    requires item.cargoType.Some?
  {
    Item(Some(ToUpper(Strip(item.cargoType.value))), item.packageCount,
         NormalizedField(item.containerNumber), NormalizedField(item.masterBillNumber),
         NormalizedField(item.houseBillNumber))
  }

  /** An item as the rules require it after normalisation: a listed cargo
      type, a positive count, and each optional field blank or stripped
      alphanumeric text. */
  predicate WellFormed(item: Item, isAlnum: char -> bool) {
    && item.cargoType.Some? && item.cargoType.value in CargoTypes
    && item.packageCount.Some? && item.packageCount.value > 0
    && forall q :: IsBlank(Reference(item, q))
                   || (IsAlnumText(Reference(item, q).value, isAlnum) && Strip(Reference(item, q).value) == Reference(item, q).value)
  }

  /** Setting a field to the value it has changes nothing. */
  lemma WithSameReference(item: Item, q: Qualifier)
    requires Reference(item, q).Some?
    ensures WithReference(item, q, Reference(item, q).value) == item
  {
  }

  /** The three optional-field checks pass exactly when each field passes its
      own, and then store each field normalised. */
  lemma CheckReferencesAll(typed: Item, isAlnum: char -> bool)
    ensures CheckReferences(typed, isAlnum).1.None?
            <==> forall q :: ReferenceAccepted(typed, q, isAlnum)
    ensures CheckReferences(typed, isAlnum).1.None? ==>
              CheckReferences(typed, isAlnum).0
              == typed.(containerNumber := NormalizedField(typed.containerNumber),
                        masterBillNumber := NormalizedField(typed.masterBillNumber),
                        houseBillNumber := NormalizedField(typed.houseBillNumber))
  {
    CheckReferencesVerdict(typed, isAlnum);
    if CheckReferences(typed, isAlnum).1.None? {
      CheckReferencesResult(typed, isAlnum);
    }
  }

  lemma CheckReferencesVerdict(typed: Item, isAlnum: char -> bool)
    ensures CheckReferences(typed, isAlnum).1.None?
            <==> forall q :: ReferenceAccepted(typed, q, isAlnum)
  {
    ChainVerdict(typed, isAlnum);
    if forall q :: ReferenceAccepted(typed, q, isAlnum) {
      assert ReferenceAccepted(typed, AAQ, isAlnum);
      assert ReferenceAccepted(typed, MB, isAlnum);
      assert ReferenceAccepted(typed, BH, isAlnum);
    } else {
      var q :| !ReferenceAccepted(typed, q, isAlnum);
      assert q == AAQ || q == MB || q == BH;
    }
  }

  /** The chain of the three checks passes exactly when each field passes its
      own check on the item as it came in. */
  lemma ChainVerdict(typed: Item, isAlnum: char -> bool)
    ensures CheckReferences(typed, isAlnum).1.None?
            <==> ReferenceAccepted(typed, AAQ, isAlnum) && ReferenceAccepted(typed, MB, isAlnum)
                 && ReferenceAccepted(typed, BH, isAlnum)
  {
    var first := CheckReference(typed, AAQ, isAlnum);
    if first.Some? {
      Carried(typed, AAQ, MB, isAlnum);
      Carried(typed, AAQ, BH, isAlnum);
      var second := CheckReference(first.value, MB, isAlnum);
      if second.Some? {
        Carried(first.value, MB, BH, isAlnum);
      }
    }
  }

  /** A passing check of the field of `q` leaves the verdict on the field of
      `other` as it was. */
  lemma Carried(item: Item, q: Qualifier, other: Qualifier, isAlnum: char -> bool)
    requires CheckReference(item, q, isAlnum).Some? && other != q
    ensures ReferenceAccepted(CheckReference(item, q, isAlnum).value, other, isAlnum)
            == ReferenceAccepted(item, other, isAlnum)
  {
    StepKeeps(item, q, isAlnum);
    assert Reference(CheckReference(item, q, isAlnum).value, other) == Reference(item, other);
  }

  lemma CheckReferencesResult(typed: Item, isAlnum: char -> bool)
    requires CheckReferences(typed, isAlnum).1.None?
    ensures CheckReferences(typed, isAlnum).0
            == typed.(containerNumber := NormalizedField(typed.containerNumber),
                      masterBillNumber := NormalizedField(typed.masterBillNumber),
                      houseBillNumber := NormalizedField(typed.houseBillNumber))
  {
    var first := CheckReference(typed, AAQ, isAlnum).value;
    StepKeeps(typed, AAQ, isAlnum);
    var second := CheckReference(first, MB, isAlnum).value;
    StepKeeps(first, MB, isAlnum);
    var third := CheckReference(second, BH, isAlnum).value;
    StepKeeps(second, BH, isAlnum);
    var target := typed.(containerNumber := NormalizedField(typed.containerNumber),
                         masterBillNumber := NormalizedField(typed.masterBillNumber),
                         houseBillNumber := NormalizedField(typed.houseBillNumber));
    SameByReferences(third, target);
  }

  /** One optional-field check that passes normalises its own field and
      leaves the others as they were. */
  lemma StepKeeps(item: Item, q: Qualifier, isAlnum: char -> bool)
    requires CheckReference(item, q, isAlnum).Some?
    ensures ReferenceAccepted(item, q, isAlnum)
    ensures Reference(CheckReference(item, q, isAlnum).value, q) == NormalizedField(Reference(item, q))
    ensures forall q' :: q' != q ==> Reference(CheckReference(item, q, isAlnum).value, q') == Reference(item, q')
    ensures CheckReference(item, q, isAlnum).value.cargoType == item.cargoType
    ensures CheckReference(item, q, isAlnum).value.packageCount == item.packageCount
  {
  }

  lemma SameByReferences(a: Item, b: Item)
    requires a.cargoType == b.cargoType && a.packageCount == b.packageCount
    requires Reference(a, AAQ) == Reference(b, AAQ) && Reference(a, MB) == Reference(b, MB)
    requires Reference(a, BH) == Reference(b, BH)
    ensures a == b
  {
  }

  /** An item passes the loop body exactly when it is acceptable, and is then
      left in its normalised form. */
  lemma CheckItemAccepts(item: Item, isAlnum: char -> bool)
    ensures CheckItem(item, isAlnum).1.None? <==> Acceptable(item, isAlnum)
    ensures CheckItem(item, isAlnum).1.None? ==> CheckItem(item, isAlnum).0 == Normalized(item)
  {
    if item.cargoType.Some? && item.packageCount.Some? {
      var cargoType := ToUpper(Strip(item.cargoType.value));
      if cargoType in CargoTypes && item.packageCount.value > 0 {
        var typed := item.(cargoType := Some(cargoType));
        assert CheckItem(item, isAlnum) == CheckReferences(typed, isAlnum);
        CheckReferencesAll(typed, isAlnum);
        SameReferences(item, typed, isAlnum);
      }
    }
  }

  /** The rules are checked in the source's order, and each error is raised
      exactly when its rule is the first one the item breaks. */
  lemma CheckItemErrors(item: Item, isAlnum: char -> bool)
    ensures CheckItem(item, isAlnum).1 == Some(CargoTypeRequired) <==> item.cargoType.None?
    ensures CheckItem(item, isAlnum).1 == Some(PackageCountRequired)
            <==> item.cargoType.Some? && item.packageCount.None?
    ensures CheckItem(item, isAlnum).1 == Some(InvalidCargoType)
            <==> item.cargoType.Some? && item.packageCount.Some? && ToUpper(Strip(item.cargoType.value)) !in CargoTypes
    ensures CheckItem(item, isAlnum).1 == Some(NonPositivePackageCount)
            <==> item.cargoType.Some? && item.packageCount.Some? && ToUpper(Strip(item.cargoType.value)) in CargoTypes
                 && item.packageCount.value <= 0
    ensures CheckItem(item, isAlnum).1 == Some(InvalidNumberFormat(AAQ))
            <==> HeaderAccepted(item) && !ReferenceAccepted(item, AAQ, isAlnum)
    ensures CheckItem(item, isAlnum).1 == Some(InvalidNumberFormat(MB))
            <==> HeaderAccepted(item) && ReferenceAccepted(item, AAQ, isAlnum) && !ReferenceAccepted(item, MB, isAlnum)
    ensures CheckItem(item, isAlnum).1 == Some(InvalidNumberFormat(BH))
            <==> HeaderAccepted(item) && ReferenceAccepted(item, AAQ, isAlnum) && ReferenceAccepted(item, MB, isAlnum)
                 && !ReferenceAccepted(item, BH, isAlnum)
  {
    if HeaderAccepted(item) {
      var typed := item.(cargoType := Some(ToUpper(Strip(item.cargoType.value))));
      assert CheckItem(item, isAlnum) == CheckReferences(typed, isAlnum);
      SameReferences(item, typed, isAlnum);
      NumberFormatErrors(typed, isAlnum);
    }
  }

  /** The cargo type and the package count pass their rules. */
  predicate HeaderAccepted(item: Item) {
    && item.cargoType.Some? && item.packageCount.Some?
    && ToUpper(Strip(item.cargoType.value)) in CargoTypes
    && item.packageCount.value > 0
  }

  /** The optional-field checks fail at the first field that does not pass
      its own check. */
  lemma NumberFormatErrors(typed: Item, isAlnum: char -> bool)
    ensures CheckReferences(typed, isAlnum).1 == Some(InvalidNumberFormat(AAQ)) <==> !ReferenceAccepted(typed, AAQ, isAlnum)
    ensures CheckReferences(typed, isAlnum).1 == Some(InvalidNumberFormat(MB))
            <==> ReferenceAccepted(typed, AAQ, isAlnum) && !ReferenceAccepted(typed, MB, isAlnum)
    ensures CheckReferences(typed, isAlnum).1 == Some(InvalidNumberFormat(BH))
            <==> ReferenceAccepted(typed, AAQ, isAlnum) && ReferenceAccepted(typed, MB, isAlnum)
                 && !ReferenceAccepted(typed, BH, isAlnum)
  {
    match CheckReference(typed, AAQ, isAlnum)
    case None =>
    case Some(contained) =>
      Carried(typed, AAQ, MB, isAlnum);
      Carried(typed, AAQ, BH, isAlnum);
      match CheckReference(contained, MB, isAlnum)
      case None =>
      case Some(billed) =>
        Carried(contained, MB, BH, isAlnum);
  }

  lemma SameReferences(item: Item, typed: Item, isAlnum: char -> bool)
    requires typed == item.(cargoType := typed.cargoType)
    ensures forall q :: ReferenceAccepted(typed, q, isAlnum) == ReferenceAccepted(item, q, isAlnum)
  {
    forall q ensures Reference(typed, q) == Reference(item, q) {
    }
  }

  /** The normalised form of an acceptable item is well formed. */
  lemma NormalizedWellFormed(item: Item, isAlnum: char -> bool)
    requires Acceptable(item, isAlnum)
    ensures WellFormed(Normalized(item), isAlnum)
  {
    var n := Normalized(item);
    forall q ensures IsBlank(Reference(n, q))
                     || (IsAlnumText(Reference(n, q).value, isAlnum) && Strip(Reference(n, q).value) == Reference(n, q).value)
    {
      assert ReferenceAccepted(item, q, isAlnum);
      NormalizedReference(item, q);
      NormalizedFieldWellFormed(Reference(item, q), isAlnum);
    }
  }

  lemma NormalizedReference(item: Item, q: Qualifier)
    requires item.cargoType.Some?
    ensures Reference(Normalized(item), q) == NormalizedField(Reference(item, q))
  {
    match q
    case AAQ =>
    case MB =>
    case BH =>
  }

  /** An accepted optional field, normalised, is blank or stripped
      alphanumeric text. */
  lemma NormalizedFieldWellFormed(field: Option<string>, isAlnum: char -> bool)
    requires IsBlank(field) || IsAlnumText(Strip(field.value), isAlnum)
    ensures IsBlank(NormalizedField(field))
            || (IsAlnumText(NormalizedField(field).value, isAlnum)
                && Strip(NormalizedField(field).value) == NormalizedField(field).value)
  {
    if !IsBlank(field) {
      StripIdempotent(field.value);
    }
  }

  /** A well-formed item passes the rules unchanged. */
  lemma WellFormedIsFixed(item: Item, isAlnum: char -> bool)
    requires WellFormed(item, isAlnum)
    ensures CheckItem(item, isAlnum) == (item, None)
  {
    CargoTypeFixed(item.cargoType.value);
    FieldFixed(item, AAQ, isAlnum);
    FieldFixed(item, MB, isAlnum);
    FieldFixed(item, BH, isAlnum);
    assert Acceptable(item, isAlnum);
    CheckItemAccepts(item, isAlnum);
    NormalizedFixed(item);
  }

  lemma NormalizedFixed(item: Item)
    requires item.cargoType.Some? && ToUpper(Strip(item.cargoType.value)) == item.cargoType.value
    requires NormalizedField(Reference(item, AAQ)) == Reference(item, AAQ)
    requires NormalizedField(Reference(item, MB)) == Reference(item, MB)
    requires NormalizedField(Reference(item, BH)) == Reference(item, BH)
    ensures Normalized(item) == item
  {
  }

  lemma CargoTypeFixed(t: string)
    requires t in CargoTypes
    ensures ToUpper(Strip(t)) == t
  {
    if t == "LCL" {
      UpperWord(t);
    } else if t == "FCL" {
      UpperWord(t);
    } else {
      assert t == "FCX";
      UpperWord(t);
    }
  }

  /** A word of upper-case ASCII letters survives stripping and upper-casing. */
  lemma UpperWord(t: string)
    requires t != [] && forall k :: 0 <= k < |t| ==> 'A' <= t[k] <= 'Z'
    ensures ToUpper(Strip(t)) == t
  {
    assert Trimmed(t);
    UpperKeeps(t);
  }

  lemma FieldFixed(item: Item, q: Qualifier, isAlnum: char -> bool)
    requires IsBlank(Reference(item, q))
             || (IsAlnumText(Reference(item, q).value, isAlnum) && Strip(Reference(item, q).value) == Reference(item, q).value)
    ensures ReferenceAccepted(item, q, isAlnum)
    ensures NormalizedField(Reference(item, q)) == Reference(item, q)
  {
  }

  // ---------------------------------------------------------------------------
  // What the loop does to the list

  /** The loop from `k` keeps the items before `k`; when it passes, every item
      from `k` on passed the loop body and holds what the body left; when it
      fails, it failed at some `j`, every item before `j` passed, item `j`
      holds what its failing check left, and the items after `j` are
      untouched. */
  lemma {:induction false} ValidateFromSpec(s: seq<Item>, k: nat, isAlnum: char -> bool)
    requires k <= |s|
    ensures ValidateFrom(s, k, isAlnum).1[..k] == s[..k]
    ensures ValidateFrom(s, k, isAlnum).0.Pass? ==>
              forall i :: k <= i < |s| ==> CheckItem(s[i], isAlnum) == (ValidateFrom(s, k, isAlnum).1[i], None)
    ensures ValidateFrom(s, k, isAlnum).0.Fail? ==>
              exists j :: k <= j < |s| && FailedAt(s, ValidateFrom(s, k, isAlnum), k, j, isAlnum)
    decreases |s| - k
  {
    if k < |s| {
      var (item, error) := CheckItem(s[k], isAlnum);
      var r := ValidateFrom(s, k, isAlnum);
      if error.Some? {
        ItemFails(s, k, isAlnum, item, error.value);
        UpdateKeeps(s, k, item);
        assert FailedAt(s, r, k, k, isAlnum);
      } else {
        var s' := s[k := item];
        ItemPasses(s, k, isAlnum, item);
        ValidateFromSpec(s', k + 1, isAlnum);
        UpdateKeeps(s, k, item);
        PrefixStep(r.1, s', k);
        if r.0.Pass? {
          forall i | k <= i < |s| ensures CheckItem(s[i], isAlnum) == (r.1[i], None) {
            if i > k {
              assert s'[i] == s[i];
            }
          }
        } else {
          var j :| k + 1 <= j < |s'| && FailedAt(s', r, k + 1, j, isAlnum);
          assert FailedAt(s, r, k, j, isAlnum) by {
            assert s'[j + 1..] == s[j + 1..];
          }
        }
      }
    }
  }

  /** Overwriting position `k` keeps everything before and after it. */
  lemma UpdateKeeps<T>(s: seq<T>, k: nat, x: T)
    requires k < |s|
    ensures s[k := x][..k] == s[..k] && s[k := x][k + 1..] == s[k + 1..]
  {
  }

  /** Two sequences that agree up to `k + 1` agree up to `k` and at `k`. */
  lemma PrefixStep<T>(a: seq<T>, b: seq<T>, k: nat)
    requires k < |a| && k < |b| && a[..k + 1] == b[..k + 1]
    ensures a[..k] == b[..k] && a[k] == b[k]
  {
    assert a[k] == a[..k + 1][k];
    assert b[k] == b[..k + 1][k];
  }

  /** The shape of a run of the loop from `k` that failed at `j`. */
  ghost predicate FailedAt(s: seq<Item>, r: (Outcome<FormError>, seq<Item>), k: nat, j: nat, isAlnum: char -> bool)
    requires k <= j < |s| == |r.1| && r.0.Fail?
  {
    && (forall i :: k <= i < j ==> CheckItem(s[i], isAlnum) == (r.1[i], None))
    && CheckItem(s[j], isAlnum) == (r.1[j], Some(r.0.error))
    && r.1[j + 1..] == s[j + 1..]
  }

  /** `validate_cargo_items` passes exactly when every item is acceptable, and
      then leaves every item normalised and well formed. */
  lemma ValidatePasses(s: seq<Item>, isAlnum: char -> bool)
    ensures ValidateFrom(s, 0, isAlnum).0.Pass? <==> forall i :: 0 <= i < |s| ==> Acceptable(s[i], isAlnum)
    ensures ValidateFrom(s, 0, isAlnum).0.Pass? ==>
              forall i :: 0 <= i < |s| ==> ValidateFrom(s, 0, isAlnum).1[i] == Normalized(s[i])
                                           && WellFormed(ValidateFrom(s, 0, isAlnum).1[i], isAlnum)
  {
    var r := ValidateFrom(s, 0, isAlnum);
    ValidateFromSpec(s, 0, isAlnum);
    forall i | 0 <= i < |s| ensures CheckItem(s[i], isAlnum).1.None? <==> Acceptable(s[i], isAlnum) {
      CheckItemAccepts(s[i], isAlnum);
    }
    if r.0.Pass? {
      forall i | 0 <= i < |s| ensures r.1[i] == Normalized(s[i]) && WellFormed(r.1[i], isAlnum) {
        CheckItemAccepts(s[i], isAlnum);
        NormalizedWellFormed(s[i], isAlnum);
      }
    } else {
      var j :| 0 <= j < |s| && FailedAt(s, r, 0, j, isAlnum);
      assert !Acceptable(s[j], isAlnum);
    }
  }

  /** The position of the first item from `k` on that is not acceptable, or
      `|s|` when there is none. */
  function FirstRejected(s: seq<Item>, k: nat, isAlnum: char -> bool): (j: nat)
    requires k <= |s|
    ensures k <= j <= |s|
    ensures forall i :: k <= i < j ==> Acceptable(s[i], isAlnum)
    ensures j < |s| ==> !Acceptable(s[j], isAlnum)
  {
    var rejected := (item: Item) => !Acceptable(item, isAlnum);
    FirstWhere(s, k, rejected)
  }

  /** The position of the first element from `k` on that satisfies `p`, or
      `|s|` when there is none. */
  function FirstWhere<T>(s: seq<T>, k: nat, p: T -> bool): (j: nat)
    requires k <= |s|
    ensures k <= j <= |s|
    ensures forall i :: k <= i < j ==> !p(s[i])
    ensures j < |s| ==> p(s[j])
    decreases |s| - k
  {
    if k == |s| || p(s[k]) then k else FirstWhere(s, k + 1, p)
  }

  /** `validate_cargo_items` fails exactly at the first item that is not
      acceptable, with that item's error: the items before it are normalised,
      it holds what its failing check left, and the items after it are
      untouched. */
  lemma ValidateFailsAtFirst(s: seq<Item>, isAlnum: char -> bool)
    requires ValidateFrom(s, 0, isAlnum).0.Fail?
    ensures FirstRejected(s, 0, isAlnum) < |s|
    ensures FailedAt(s, ValidateFrom(s, 0, isAlnum), 0, FirstRejected(s, 0, isAlnum), isAlnum)
    ensures forall i :: 0 <= i < FirstRejected(s, 0, isAlnum) ==> ValidateFrom(s, 0, isAlnum).1[i] == Normalized(s[i])
  {
    var j := FailurePoint(s, isAlnum);
    FailedAtFirst(s, ValidateFrom(s, 0, isAlnum), j, isAlnum);
  }

  /** A failing run of the loop failed at some position. */
  lemma FailurePoint(s: seq<Item>, isAlnum: char -> bool) returns (j: nat)
    requires ValidateFrom(s, 0, isAlnum).0.Fail?
    ensures j < |s| && FailedAt(s, ValidateFrom(s, 0, isAlnum), 0, j, isAlnum)
  {
    ValidateFromSpec(s, 0, isAlnum);
    j :| 0 <= j < |s| && FailedAt(s, ValidateFrom(s, 0, isAlnum), 0, j, isAlnum);
  }

  lemma FailedAtFirst(s: seq<Item>, r: (Outcome<FormError>, seq<Item>), j: nat, isAlnum: char -> bool)
    requires j < |s| == |r.1| && r.0.Fail? && FailedAt(s, r, 0, j, isAlnum)
    ensures FirstRejected(s, 0, isAlnum) == j
    ensures forall i :: 0 <= i < j ==> r.1[i] == Normalized(s[i])
  {
    CheckItemAccepts(s[j], isAlnum);
    forall i | 0 <= i < j ensures Acceptable(s[i], isAlnum) && r.1[i] == Normalized(s[i]) {
      CheckItemAccepts(s[i], isAlnum);
    }
    FirstRejectedIs(s, j, isAlnum);
  }

  lemma FirstRejectedIs(s: seq<Item>, j: nat, isAlnum: char -> bool)
    requires j < |s| && !Acceptable(s[j], isAlnum)
    requires forall i :: 0 <= i < j ==> Acceptable(s[i], isAlnum)
    ensures FirstRejected(s, 0, isAlnum) == j
  {
  }

  /** Validating a list the rules have already normalised passes and changes
      nothing. */
  lemma ValidateIdempotent(s: seq<Item>, isAlnum: char -> bool)
    requires ValidateFrom(s, 0, isAlnum).0.Pass?
    ensures ValidateFrom(ValidateFrom(s, 0, isAlnum).1, 0, isAlnum) == (Pass, ValidateFrom(s, 0, isAlnum).1)
  {
    var t := ValidateFrom(s, 0, isAlnum).1;
    ValidatePasses(s, isAlnum);
    forall i | 0 <= i < |t| ensures CheckItem(t[i], isAlnum) == (t[i], None) {
      WellFormedIsFixed(t[i], isAlnum);
    }
    FixedItemsPass(t, 0, isAlnum);
  }

  lemma {:induction false} FixedItemsPass(t: seq<Item>, k: nat, isAlnum: char -> bool)
    requires forall i :: 0 <= i < |t| ==> CheckItem(t[i], isAlnum) == (t[i], None)
    ensures ValidateFrom(t, k, isAlnum) == (Pass, t)
    decreases |t| - k
  {
    if k < |t| {
      PassedItemStep(t, k, isAlnum);
      FixedItemsPass(t, k + 1, isAlnum);
    }
  }

  lemma PassedItemStep(t: seq<Item>, k: nat, isAlnum: char -> bool)
    requires k < |t| && CheckItem(t[k], isAlnum) == (t[k], None)
    ensures ValidateFrom(t, k, isAlnum) == ValidateFrom(t, k + 1, isAlnum)
  {
    assert t[k := t[k]] == t;
  }
}
