/**
 * services/edi_decoder.py: a single pass over the lines of a message that
 * opens a record at each `LIN+` line and fills it from the `PAC` and `RFF`
 * lines that follow.
 *
 * The pass is specified by `Step`, one line at a time, folded by `Run`; the
 * loop of `DecodeEdiToItems` is proved to compute that fold. A failed
 * construction of the pydantic record and a failed `int(...)` are the two
 * ways decoding raises; both are `Failure` results here.
 */
module EdiDecoder {
  import opened Wrappers
  import opened Text
  import opened Cargo

  /** `unescape_edi_content`: each `?'` becomes `'`, scanning left to right
      without overlap (Python's `str.replace`). */
  function Unescape(text: string): (r: string)
    ensures |r| <= |text|
    ensures '\'' !in text ==> r == text
    decreases |text|
  {
    if text == [] then []
    else if |text| >= 2 && text[0] == '?' && text[1] == '\'' then
      assert text[1] in text;
      "'" + Unescape(text[2..])
    else
      assert '\'' !in text ==> '\'' !in text[1..];
      assert text == [text[0]] + text[1..];
      [text[0]] + Unescape(text[1..])
  }

  /** Text without the escape pair `?'` is left exactly as it is. */
  lemma {:induction false} UnescapeNoPair(text: string)
    requires !Contains(text, "?'")
    ensures Unescape(text) == text
    decreases |text|
  {
    if text != [] {
      assert !OccursAt(text, "?'", 0);
      forall k | 0 <= k <= |text[1..]| - 2 ensures !OccursAt(text[1..], "?'", k) {
        OccursAtTail(text, "?'", k);
      }
      UnescapeNoPair(text[1..]);
      assert text == [text[0]] + text[1..];
    }
  }

  /** A quote that closes the text survives unescaping unless it is escaped. */
  lemma {:induction false} UnescapeClosingQuote(text: string)
    requires text == [] || text[|text| - 1] != '?'
    ensures Unescape(text + "'") == Unescape(text) + "'"
    decreases |text|
  {
    var t := text + "'";
    if text == [] {
      assert t == "'";
    } else if |text| >= 2 && text[0] == '?' && text[1] == '\'' {
      assert t[2..] == text[2..] + "'";
      UnescapeClosingQuote(text[2..]);
      UnescapePair(t);
      UnescapePair(text);
      AssocChars("'", Unescape(text[2..]), "'");
    } else {
      assert |text| == 1 ==> t[0] != '?';
      assert |text| >= 2 ==> t[1] == text[1];
      assert t[1..] == text[1..] + "'";
      UnescapeClosingQuote(text[1..]);
      UnescapeOther(t);
      UnescapeOther(text);
      AssocChars([text[0]], Unescape(text[1..]), "'");
    }
  }

  lemma UnescapePair(t: string)
    requires |t| >= 2 && t[0] == '?' && t[1] == '\''
    ensures Unescape(t) == "'" + Unescape(t[2..])
  {
  }

  lemma UnescapeOther(t: string)
    requires t != [] && !(|t| >= 2 && t[0] == '?' && t[1] == '\'')
    ensures Unescape(t) == [t[0]] + Unescape(t[1..])
  {
  }

  lemma AssocChars(a: string, b: string, c: string)
    ensures a + (b + c) == a + b + c
  {
  }

  // ---------------------------------------------------------------------------
  // One line at a time

  /** Why `decode_edi_to_items` raises: the pydantic record rejects an
      in-progress record that lacks a required field, or `int(...)` rejects
      the count field (the text it was given is kept). */
  datatype DecodeError = IncompleteItem(partial: Item) | InvalidCount(field: string)

  /** The loop's two variables: the records appended so far (`cargo_items`)
      and the in-progress record (`current`). */
  datatype Decoder = Decoder(items: seq<CargoItem>, current: Item)

  const Start: Decoder := Decoder([], NoFields)

  /** `if current: cargo_items.append(CargoItem(**current))`. */
  function Flush(d: Decoder): (r: Result<seq<CargoItem>, DecodeError>)
    ensures r.Failure? <==> d.current != NoFields && !HasRequiredFields(d.current)
    ensures r.Success? && d.current == NoFields ==> r.value == d.items
    ensures r.Success? && d.current != NoFields ==> r.value == d.items + [d.current]
  {
    if d.current == NoFields then Success(d.items)
    else if HasRequiredFields(d.current) then Success(d.items + [d.current])
    else Failure(IncompleteItem(d.current))
  }

  /** The lines the pass reacts to; every other line is skipped. */
  predicate Recognized(line: string) {
    StartsWith(line, "LIN+") || StartsWith(line, "PAC+") || StartsWith(line, "RFF+AAQ:")
    || StartsWith(line, "RFF+MB:") || StartsWith(line, "RFF+BH:")
  }

  /** `line.split(":")[0].split("+++")[1]` on a `PAC+++` line, which always
      exists: the text before the first `:` still starts with `PAC+++`. */
  function CargoTypeField(line: string): string
    requires StartsWith(line, "PAC+++")
  {
    var head := Field(line, ":", 0).value;
    CargoTypeFieldExists(line);
    Field(head, "+++", 1).value
  }

  lemma CargoTypeFieldExists(line: string)
    requires StartsWith(line, "PAC+++")
    ensures Field(Field(line, ":", 0).value, "+++", 1).Some?
  {
    var head := Field(line, ":", 0).value;
    match IndexOf(line, ":") {
      case None =>
      case Some(i) =>
        assert line[i] == ':';
        assert line[..6] == "PAC+++";
        assert head == line[..i];
    }
    assert OccursAt(head, "+++", 3);
    FieldOneSome(head, "+++");
  }

  /** `line.split("+")[1]` on a `PAC+` line, which always exists. */
  function CountField(line: string): string
    requires StartsWith(line, "PAC+")
  {
    assert OccursAt(line, "+", 3);
    FieldOneSome(line, "+");
    Field(line, "+", 1).value
  }

  /** One iteration of the loop on a stripped line: the prefixes are checked
      in the source's order. */
  function StepLine(d: Decoder, line: string): (r: Result<Decoder, DecodeError>)
    ensures !Recognized(line) ==> r == Success(d)
  {
    if StartsWith(line, "LIN+") then
      match Flush(d)
      case Failure(e) => Failure(e)
      case Success(items) => Success(Decoder(items, NoFields))
    else if StartsWith(line, "PAC+++") then
      Success(d.(current := d.current.(cargoType := Some(CargoTypeField(line)))))
    else if StartsWith(line, "PAC+") then
      match ParseInt(CountField(line))
      case None => Failure(InvalidCount(CountField(line)))
      case Some(n) => Success(d.(current := d.current.(packageCount := Some(n))))
    else if ReferenceQualifier(line).Some? then
      Success(d.(current := WithReference(d.current, ReferenceQualifier(line).value, Unescape(After(line, ":")))))
    else
      Success(d)
  }

  /** One iteration of the loop on the raw line, which is stripped first. */
  function Step(d: Decoder, raw: string): Result<Decoder, DecodeError> {
    StepLine(d, Strip(raw))
  }

  /** The loop over `lines`, stopping at the first failure. */
  function Run(d: Decoder, lines: seq<string>): Result<Decoder, DecodeError>
    decreases |lines|
  {
    if lines == [] then Success(d)
    else
      match Step(d, lines[0])
      case Failure(e) => Failure(e)
      case Success(next) => Run(next, lines[1..])
  }

  /** `decode_edi_to_items`: run the lines of the stripped text, then flush. */
  function Decode(edi: string): Result<seq<CargoItem>, DecodeError> {
    match Run(Start, SplitLines(Strip(edi)))
    case Failure(e) => Failure(e)
    case Success(d) => Flush(d)
  }

  /** `decode_edi_to_items`, as the source writes it: a `for` loop over the
      lines that mutates `current` and appends to `cargo_items`. */
  method DecodeEdiToItems(edi: string) returns (r: Result<seq<CargoItem>, DecodeError>)
    ensures r == Decode(edi)
  {
    var lines := SplitLines(Strip(edi));
    var cargoItems: seq<CargoItem> := [];
    var current := NoFields;
    for k := 0 to |lines|
      invariant Run(Start, lines) == Run(Decoder(cargoItems, current), lines[k..])
    {
      RunStep(Decoder(cargoItems, current), lines, k);
      var step := DecodeLine(cargoItems, current, Strip(lines[k]));
      if step.Failure? {
        return Failure(step.error);
      }
      cargoItems, current := step.value.items, step.value.current;
    }
    assert lines[|lines|..] == [];
    if current != NoFields {
      if !HasRequiredFields(current) {
        return Failure(IncompleteItem(current));
      }
      cargoItems := cargoItems + [current];
    }
    return Success(cargoItems);
  }

  /** The body of the loop of `decode_edi_to_items` on one stripped line:
      the prefixes are checked in order, and a `LIN+` line appends the record
      in progress before opening a new one. */
  method DecodeLine(cargoItems: seq<CargoItem>, current: Item, line: string) returns (r: Result<Decoder, DecodeError>)
    ensures r == StepLine(Decoder(cargoItems, current), line)
  {
    var items: seq<CargoItem>, item: Item := cargoItems, current;
    if StartsWith(line, "LIN+") {
      if item != NoFields {
        if !HasRequiredFields(item) {
          return Failure(IncompleteItem(item));
        }
        items := items + [item];
      }
      item := NoFields;
    } else if StartsWith(line, "PAC+++") {
      item := item.(cargoType := Some(CargoTypeField(line)));
    } else if StartsWith(line, "PAC+") {
      var count := ParseInt(CountField(line));
      if count.None? {
        return Failure(InvalidCount(CountField(line)));
      }
      item := item.(packageCount := count);
    } else if StartsWith(line, "RFF+AAQ:") {
      item := item.(containerNumber := Some(Unescape(After(line, ":"))));
    } else if StartsWith(line, "RFF+MB:") {
      item := item.(masterBillNumber := Some(Unescape(After(line, ":"))));
    } else if StartsWith(line, "RFF+BH:") {
      item := item.(houseBillNumber := Some(Unescape(After(line, ":"))));
    }
    return Success(Decoder(items, item));
  }

  // The effect of one line of each kind. The `Step...` lemmas say what one
  // stripped line does to the state, the `Run...` lemmas what that means for
  // the rest of the run. `StepPacType`, `StepPacCount` and `StepReference`
  // only unfold one branch of `StepLine`; they are proof aids for
  // `StepKeepsItems`, `PacTypeLine`, `PacCountLine` and `ReferenceLine`,
  // which state what those lines mean.

  lemma StepLin(d: Decoder, line: string)
    requires StartsWith(line, "LIN+")
    ensures d.current != NoFields && !HasRequiredFields(d.current) ==>
              StepLine(d, line) == Failure(IncompleteItem(d.current))
    ensures d.current == NoFields ==> StepLine(d, line) == Success(Decoder(d.items, NoFields))
    ensures HasRequiredFields(d.current) ==> StepLine(d, line) == Success(Decoder(d.items + [d.current], NoFields))
  {
  }

  lemma StepPacType(d: Decoder, line: string)
    requires !StartsWith(line, "LIN+") && StartsWith(line, "PAC+++")
    ensures StepLine(d, line) == Success(d.(current := d.current.(cargoType := Some(CargoTypeField(line)))))
  {
  }

  lemma StepPacCount(d: Decoder, line: string)
    requires !StartsWith(line, "LIN+") && !StartsWith(line, "PAC+++") && StartsWith(line, "PAC+")
    ensures ParseInt(CountField(line)).None? ==> StepLine(d, line) == Failure(InvalidCount(CountField(line)))
    ensures ParseInt(CountField(line)).Some? ==>
              StepLine(d, line) == Success(d.(current := d.current.(packageCount := ParseInt(CountField(line)))))
  {
  }

  lemma StepReference(d: Decoder, line: string, q: Qualifier)
    requires !StartsWith(line, "LIN+") && !StartsWith(line, "PAC+") && ReferenceQualifier(line) == Some(q)
    ensures StepLine(d, line) == Success(d.(current := WithReference(d.current, q, Unescape(After(line, ":")))))
  {
  }

  lemma RunStep(d: Decoder, lines: seq<string>, k: nat)
    requires k < |lines|
    ensures Run(d, lines[k..]) == match Step(d, lines[k])
                                  case Failure(e) => Failure(e)
                                  case Success(next) => Run(next, lines[k + 1..])
  {
    assert lines[k..][1..] == lines[k + 1..];
  }

  lemma RunLinLine(d: Decoder, lines: seq<string>, k: nat)
    requires k < |lines| && StartsWith(Strip(lines[k]), "LIN+")
    ensures d.current != NoFields && !HasRequiredFields(d.current) ==>
              Run(d, lines[k..]) == Failure(IncompleteItem(d.current))
    ensures d.current == NoFields ==> Run(d, lines[k..]) == Run(Decoder(d.items, NoFields), lines[k + 1..])
    ensures HasRequiredFields(d.current) ==>
              Run(d, lines[k..]) == Run(Decoder(d.items + [d.current], NoFields), lines[k + 1..])
  {
    RunStep(d, lines, k);
    StepLin(d, Strip(lines[k]));
  }

  lemma RunIgnoredLine(d: Decoder, lines: seq<string>, k: nat)
    requires k < |lines| && !Recognized(Strip(lines[k]))
    ensures Run(d, lines[k..]) == Run(d, lines[k + 1..])
  {
    RunStep(d, lines, k);
  }

  // ---------------------------------------------------------------------------
  // Properties of the pass

  /** Running two stretches of lines is running the first, then the second
      from where the first stopped. */
  lemma {:induction false} RunAppend(d: Decoder, a: seq<string>, b: seq<string>)
    ensures Run(d, a + b) == match Run(d, a)
                             case Failure(e) => Failure(e)
                             case Success(mid) => Run(mid, b)
    decreases |a|
  {
    if a == [] {
      assert a + b == b;
    } else {
      RunStep(d, a + b, 0);
      assert (a + b)[0] == a[0];
      assert (a + b)[1..] == a[1..] + b;
      RunStep(d, a, 0);
      match Step(d, a[0])
      case Failure(e) =>
      case Success(next) => RunAppend(next, a[1..], b);
    }
  }

  /** Lines the pass does not recognize (`PCI+1'`, blank lines, unknown
      segments) leave the state as it is. */
  lemma {:induction false} IgnoredLines(d: Decoder, lines: seq<string>)
    requires forall k :: 0 <= k < |lines| ==> !Recognized(Strip(lines[k]))
    ensures Run(d, lines) == Success(d)
    decreases |lines|
  {
    if lines != [] {
      RunIgnoredLine(d, lines, 0);
      IgnoredLines(d, lines[1..]);
    }
  }

  /** A message with no recognized line, the empty one included, decodes to no
      records. */
  lemma NothingRecognized(edi: string)
    requires forall k :: 0 <= k < |SplitLines(Strip(edi))| ==> !Recognized(Strip(SplitLines(Strip(edi))[k]))
    ensures Decode(edi) == Success([])
  {
    IgnoredLines(Start, SplitLines(Strip(edi)));
  }

  /** Records already decoded are never dropped or reordered: the result
      lists them in the order of their `LIN+` lines. */
  lemma {:induction false} RunKeepsItems(d: Decoder, lines: seq<string>)
    ensures Run(d, lines).Success? ==> d.items <= Run(d, lines).value.items
    decreases |lines|
  {
    if lines != [] {
      RunStep(d, lines, 0);
      StepKeepsItems(d, lines[0]);
      assert lines[0..] == lines;
      match Step(d, lines[0])
      case Failure(e) =>
      case Success(next) =>
        RunKeepsItems(next, lines[1..]);
    }
  }

  /** One line never drops or reorders the records already decoded. */
  lemma StepKeepsItems(d: Decoder, raw: string)
    ensures Step(d, raw).Success? ==> d.items <= Step(d, raw).value.items
  {
    var line := Strip(raw);
    if StartsWith(line, "LIN+") {
      StepLin(d, line);
    } else if StartsWith(line, "PAC+++") {
      StepPacType(d, line);
    } else if StartsWith(line, "PAC+") {
      StepPacCount(d, line);
    } else if ReferenceQualifier(line).Some? {
      StepReference(d, line, ReferenceQualifier(line).value);
    }
  }

  /** The text that closes a line survives stripping when its last character
      is not whitespace. */
  lemma StripKeeps(line: string)
    requires Trimmed(line)
    ensures Strip(line) == line
  {
  }

  /** In `PAC+++<t>:<rest>`, where `<t>` has no `:` and no `+`, the cargo type
      field is exactly `<t>`. */
  lemma CargoTypeFieldOf(t: string, rest: string)
    requires ':' !in t && '+' !in t
    ensures StartsWith("PAC+++" + t + ":" + rest, "PAC+++")
    ensures CargoTypeField("PAC+++" + t + ":" + rest) == t
  {
    var line := "PAC+++" + t + ":" + rest;
    var head := "PAC+++" + t;
    IndexOfAfterHead(line, head, ':');
    assert line[..|head|] == head;
    assert Field(line, ":", 0) == Some(head);
    assert OccursAt(head, "+++", 3);
    forall k | 0 <= k < 3 ensures !OccursAt(head, "+++", k) {
      assert head[k] == "PAC"[k];
      assert head[k..k + 3][0] == head[k];
    }
    IndexOfIs(head, "+++", 3);
    assert head[6..] == t;
    assert !Contains(t, "+++");
    assert IndexOf(t, "+++").None?;
    assert Field(t, "+++", 0) == Some(t);
  }

  /** On `PAC+++<t>:<rest>` the cargo type becomes exactly `<t>`; nothing else
      changes. */
  lemma PacTypeLine(d: Decoder, t: string, rest: string)
    requires ':' !in t && '+' !in t
    requires !IsWhitespace(("PAC+++" + t + ":" + rest)[|"PAC+++" + t + ":" + rest| - 1])
    ensures Step(d, "PAC+++" + t + ":" + rest) == Success(d.(current := d.current.(cargoType := Some(t))))
  {
    var line := "PAC+++" + t + ":" + rest;
    StripKeeps(line);
    CargoTypeFieldOf(t, rest);
    StepPacType(d, line);
  }

  /** In `PAC+<count>+<rest>`, where `<count>` has no `+`, the count field is
      exactly `<count>`. */
  lemma CountFieldOf(count: string, rest: string)
    requires '+' !in count
    ensures StartsWith("PAC+" + count + "+" + rest, "PAC+")
    ensures CountField("PAC+" + count + "+" + rest) == count
  {
    var line := "PAC+" + count + "+" + rest;
    var tail := count + "+" + rest;
    assert line == "PAC+" + tail;
    IndexOfAfterHead(line, "PAC", '+');
    assert line[4..] == tail;
    assert Field(line, "+", 1) == Field(tail, "+", 0);
    FirstFieldOf(count, rest);
  }

  lemma FirstFieldOf(count: string, rest: string)
    requires '+' !in count
    ensures Field(count + "+" + rest, "+", 0) == Some(count)
  {
    var tail := count + "+" + rest;
    IndexOfAfterHead(tail, count, '+');
    assert tail[..|count|] == count;
  }

  /** On `PAC+<count>+<rest>` (count not starting with `+`) the package count
      becomes `int(<count>)`, and decoding raises when `int` rejects it. */
  lemma PacCountLine(d: Decoder, count: string, rest: string)
    requires count != [] && '+' !in count
    requires !IsWhitespace(("PAC+" + count + "+" + rest)[|"PAC+" + count + "+" + rest| - 1])
    ensures ParseInt(count).None? ==> Step(d, "PAC+" + count + "+" + rest) == Failure(InvalidCount(count))
    ensures ParseInt(count).Some? ==>
              Step(d, "PAC+" + count + "+" + rest) == Success(d.(current := d.current.(packageCount := ParseInt(count))))
  {
    var line := "PAC+" + count + "+" + rest;
    StripKeeps(line);
    CountFieldOf(count, rest);
    assert !StartsWith(line, "PAC+++") by {
      assert line[4] == count[0];
    }
    StepPacCount(d, line);
  }

  /** `RFF+<q>:<v>` sets the reference of `q` to `Unescape(v)`, replacing an
      earlier value and keeping the rest of the record; the terminating quote
      stays part of `v`. */
  lemma ReferenceLine(d: Decoder, q: Qualifier, v: string)
    requires !IsWhitespace(("RFF+" + QualifierCode(q) + ":" + v)[|"RFF+" + QualifierCode(q) + ":" + v| - 1])
    ensures Step(d, "RFF+" + QualifierCode(q) + ":" + v)
            == Success(d.(current := WithReference(d.current, q, Unescape(v))))
  {
    var line := "RFF+" + QualifierCode(q) + ":" + v;
    StripKeeps(line);
    ReferenceFieldOf(q, v);
    StepReference(d, line, q);
  }

  /** `RFF+<q>:<v>` is read as a reference line of `q` whose value is `v`. */
  lemma ReferenceFieldOf(q: Qualifier, v: string)
    ensures var line := "RFF+" + QualifierCode(q) + ":" + v;
            !StartsWith(line, "LIN+") && !StartsWith(line, "PAC+")
            && ReferenceQualifier(line) == Some(q) && After(line, ":") == v
  {
    var line := "RFF+" + QualifierCode(q) + ":" + v;
    ReferenceHeadQualifier(q, v);
    ReferenceValueAfter(q, v);
    assert line[0] == 'R';
  }
}
