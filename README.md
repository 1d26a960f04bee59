# cargo-edi-backend core, in Dafny

The service converts lists of cargo items to and from a small line-oriented
text format. The format borrows the UN/EDIFACT segment tags `LIN`, `PAC`, `PCI` and
`RFF`, the segment terminator `'` and the release character `?`. A cargo item
has a cargo type, a package count and three optional references: a container
number (`AAQ`), a master bill of lading (`MB`) and a house bill of lading
(`BH`).

The core has four parts:

- **Generator** (`services/edi_generator.py`) writes one block per item. The
  item at position k gets `LIN+<k+1>+I'`, `PAC+++<type>:67:95'` and
  `PAC+<count>+1'`. A `PCI+1'` / `RFF+<q>:<escaped value>'` pair follows for
  each non-empty reference. Lines are joined by `'\n'`.
- **Validator** (`services/edi_validator.py`) trims the text and drops blank
  lines. It checks every line for its terminator, then walks the lines with a
  cursor, block by block. It collects every problem it meets and never stops
  early.
- **Decoder** (`services/edi_decoder.py`) makes a single pass over the lines.
  Each `LIN+` line opens a record, which the `PAC` and `RFF` lines then fill.
  It does not call the validator.
- **Form rules** (`services/form_validator.py`) check a request's items in list
  order, normalise them in place, and stop at the first item that breaks a
  rule.

Modules:

- `Wrappers`: `Option`, `Result` and `Outcome`.
- `Text`: the Python string operations the code uses, over `string` (`strip`,
  `rstrip`, `upper`, `startswith`, `find`, `split`, `splitlines`,
  `"\n".join`, `int` and `str` of integers).
- `Cargo`: the item record and the qualifiers.
- `EdiGenerator`, `EdiValidator`, `EdiDecoder` and `FormValidator`: one
  module per source file.
- `Codec`: the properties that relate the three codec files to each other.

How the model takes the source's form:

- The pure functions are Dafny functions.
- Three loops are methods proved equal to specification functions:
  - the validator's cursor loop and its inner `PCI`/`RFF` loop (`ValidationErrors`, `Block`, `PciPairs`);
  - the decoder's `for` loop (`Decode`, a fold of `Step`);
  - the form rules' loop over the list, which overwrites the items in an array in place (`ValidateFrom`).
- The properties are proved about those functions.
- Diagnostics are values (`LineError(k, problem)` stands for "Line k: …").
  The offending characters of a reference are a set.
- Python's `str.isalnum` is Unicode-aware, so the form rules take it as a
  parameter `isAlnum`. The validator's `[a-zA-Z0-9]` is the ASCII predicate it
  names.

The repository's tests expect behaviour that the code does not have. The
model follows the code:

- The decoder does not run the validator. tests/test_edi_decoder.py:38-72
  and tests/test_edi_decoder.py:118-178 expect validator errors from it.
- The decoder returns no records for an empty text.
  tests/test_edi_decoder.py:103-108 expects an error.
- The validator does not check the cargo type.
  tests/test_edi_validator.py:32-42 expects an "Invalid cargo type" error.
- A reference line ending in `''` or `'''` is accepted, because every
  trailing `'` is removed before the check. tests/test_edi_validator.py:44-66
  expects it to be rejected.
- A zero count is reported as "must be 1 or greater".
  tests/test_edi_validator.py:119-129 expects "must be at least 1".
- A decoded reference keeps its closing `'`.
  tests/test_edi_decoder.py:16 expects the value without it.

Three more things the code does:

- `PAC+<n>+<m>` is read as a count without checking the marker `m`.
- Decoding the generated text does not give back the items field for field:
  each written reference comes back with the terminator attached.
- The generator does not escape the release character `?`. A value that ends
  with `?` therefore comes back with that `?` swallowed into the terminator:
  `A?` is written as `RFF+AAQ:A?'` and read back as `A'`
  (`Codec.TrailingReleaseMisread`).

## Model

| member | source | states |
|---|---|---|
| Text.Strip | services/edi_validator.py:41 | `str.strip()`: empty exactly when the text is all whitespace, otherwise starts and ends with a visible character, and leaves such a text unchanged |
| Text.StripIsCut | services/edi_validator.py:41 | `str.strip()` returns a slice of the text with only whitespace cut off before and after it; with `Text.Strip`, the longest such runs |
| Text.TrimEndChar | services/edi_validator.py:101 | `rstrip("'")`: removes exactly the trailing run of the character, leaving a prefix that does not end with it |
| Text.IndexOf | services/edi_decoder.py:39 | the index `split(":", 1)` cuts at: an occurrence with none before it, and None exactly when there is no occurrence |
| Text.ParseIntToString | services/edi_generator.py:25 | `int(str(n)) == n` for every integer, so the count the generator writes is the count the decoder reads |
| Text.SplitJoin | services/edi_generator.py:39 | splitting on '\n' undoes `"\n".join` for lines that hold no '\n' |
| Text.NatToString | services/edi_generator.py:23 | the block number is written as a non-empty digit string that reads back as the number |
| Cargo.WithReference | services/edi_decoder.py:38-45 | setting one reference replaces only that field; the other references, the cargo type and the count are kept |
| Cargo.ReferenceQualifierSpec | services/edi_validator.py:99-129 | a line is a reference line exactly when it starts with `RFF+`, a qualifier code and ':', and then it belongs to that qualifier |
| EdiGenerator.Escape | services/edi_generator.py:16-18 | `escape_edi_content` leaves quote-free text and the empty text unchanged, and introduces a `?` wherever there is a quote |
| EdiGenerator.EscapeChar | services/edi_generator.py:16-18 | `replace("'", "?'")` on one character: a quote becomes `?'`, any other character is kept |
| EdiGenerator.EscapeAppend | services/edi_generator.py:16-18 | the replacement works character by character: escaping a concatenation is concatenating the escaped parts |
| EdiGenerator.BuildSegment | services/edi_generator.py:21-39 | the conditional appends to the local list, then the join, compute `GenerateEdiSegment` |
| EdiGenerator.SegmentLayout | services/edi_generator.py:22-37 | a block opens with the LIN and two PAC lines and continues with the PCI/RFF pairs of its non-empty references, 3 + 2·(number of non-empty references) lines |
| EdiGenerator.SegmentAsReferences | services/edi_generator.py:27-37 | the three conditional appends emit one PCI/RFF pair per present, non-empty reference, in the fixed order container, master bill, house bill |
| EdiGenerator.SegmentTerminated | services/edi_generator.py:21-39 | every line of a block is non-empty and ends with the terminator `'` |
| EdiGenerator.BlockNumbering | services/edi_generator.py:43 | the item at position k gets the block numbered k + 1 |
| EdiGenerator.JoinOfBlocks | services/edi_generator.py:42-44 | joining the joined blocks is joining all their lines at once |
| EdiGenerator.FullEdiLines | services/edi_generator.py:42-44 | the full text is the '\n'-join of every block's lines, and it is empty exactly when the item list is |
| EdiValidator.SearchFindsEmptyLineRun | services/edi_validator.py:36 | the search for `\n\s*\n` succeeds exactly when the text has two line feeds with only whitespace between them |
| EdiValidator.StripNonBlank | services/edi_validator.py:41 | the comprehension keeps at most as many lines, each stripped and non-blank |
| EdiValidator.StripNonBlankOne | services/edi_validator.py:41 | on one line the comprehension gives the stripped line if it is not blank, and nothing otherwise |
| EdiValidator.StripNonBlankAppend | services/edi_validator.py:41 | the comprehension takes the lines one by one and in order: its result for a concatenation is the concatenation of its results |
| EdiValidator.CheckTerminators | services/edi_validator.py:47-50 | the terminator loop appends exactly the terminator diagnostics `QuoteErrors` |
| EdiValidator.QuoteErrorsSpec | services/edi_validator.py:47-50 | line k draws a terminator diagnostic exactly when it does not end with `'`; these diagnostics are in ascending line order |
| EdiValidator.CheckPciPairs | services/edi_validator.py:91-147 | the inner loop appends exactly the diagnostics of `PciPairs` and leaves the cursor where `PciPairs` stops |
| EdiValidator.PciPairsSpec | services/edi_validator.py:91-147 | the inner loop reports only on lines from its start on and within the input, never a terminator problem, and never moves the cursor past the end |
| EdiValidator.CheckBlock | services/edi_validator.py:56-147 | one pass of the outer loop appends exactly the block's diagnostics and moves the cursor to where the block ends |
| EdiValidator.BlockSpec | services/edi_validator.py:56-147 | a block's diagnostics name lines from its first line up to two past the end of the input |
| EdiValidator.ScanSpec | services/edi_validator.py:55-152 | every diagnostic of the walk names a line from the cursor on, at most two past the end of the input, and is no terminator diagnostic |
| EdiValidator.ValidateEdiMessage | services/edi_validator.py:11-155 | `validate_edi_message` terminates on every text, returns every diagnostic of `ValidationErrors` in order, and is valid exactly when there is none |
| EdiValidator.DiagnosticsLayout | services/edi_validator.py:36-50 | the empty-line diagnostic is present exactly when the text has an empty-line run, and is then first and unique; line k has a terminator diagnostic exactly when it lacks the final `'` |
| EdiValidator.EmptyLinesLayout | services/edi_validator.py:36-37 | the empty-line diagnostic appears exactly when there is an empty-line run, only at the front |
| EdiValidator.QuoteLayout | services/edi_validator.py:47-50 | among all diagnostics, line k's terminator diagnostic is present exactly when line k does not end with `'` |
| EdiValidator.BlankMessageIsValid | services/edi_validator.py:36-55 | a blank text without an empty-line run has no lines and is valid |
| EdiValidator.LinMismatchReported | services/edi_validator.py:59-63 | a LIN line that does not carry the block number is reported first for that block, and the walk continues with the next block under the next number |
| EdiValidator.PacPatternNumber | services/edi_validator.py:77-79 | a match of `PAC\+(\d+)\+1'` starts with `PAC+` followed by a digit |
| EdiValidator.PacPatternDigits | services/edi_validator.py:77-79 | `PAC+<digits>+1'…` matches the pattern, and the captured number is the digits' value |
| EdiValidator.PacPatternOnly | services/edi_validator.py:77-79 | only `PAC+<digits>+1'…` matches the pattern |
| EdiValidator.CountLineDigits | services/edi_validator.py:73-88 | `PAC+<digits>+1'` is accepted when its value is at least 1 and reported as below one when it is 0 |
| EdiValidator.CountLineSymbol | services/edi_validator.py:73-88 | a count line with a symbol where the digits belong (such as `PAC+-5+1'`) is reported as not a positive integer |
| EdiValidator.InvalidCharsEmpty | services/edi_validator.py:106-107 | no offending character is found exactly when every character is an ASCII letter or digit |
| EdiValidator.ReferenceLineVerdict | services/edi_validator.py:99-113 | for `RFF+<q>:<v>`, `v` without its trailing quotes is reported as empty, accepted when ASCII alphanumeric, or reported with its set of offending characters |
| EdiValidator.TrailingQuotesIgnored | services/edi_validator.py:101 | a reference followed by any number of `'` is accepted like the reference with one |
| EdiValidator.PciWithoutReference | services/edi_validator.py:144-145 | a PCI line followed by a non-reference line reports that line and leaves the cursor on it |
| EdiValidator.PciAtEnd | services/edi_validator.py:146-147 | a PCI line as the last line reports an unexpected end on that line |
| EdiDecoder.Unescape | services/edi_decoder.py:15-17 | `unescape_edi_content` never lengthens the text and leaves quote-free text (the empty text included) unchanged |
| EdiDecoder.UnescapeNoPair | services/edi_decoder.py:15-17 | text without the pair `?'` is unchanged |
| EdiDecoder.UnescapeClosingQuote | services/edi_decoder.py:15-17 | a closing `'` not preceded by `?` survives unescaping |
| EdiDecoder.Flush | services/edi_decoder.py:47-48 | the final flush fails exactly when a non-empty record lacks a required field; otherwise it appends that record, or nothing when it is empty |
| EdiDecoder.StepLine | services/edi_decoder.py:26-45 | a line that matches none of the six prefixes leaves the state unchanged |
| EdiDecoder.DecodeLine | services/edi_decoder.py:26-45 | the loop body, with the prefixes checked in the source's order, computes one step of the fold `StepLine` |
| EdiDecoder.DecodeEdiToItems | services/edi_decoder.py:20-50 | `decode_edi_to_items` computes `Decode`: the fold of the line steps over the stripped lines, stopping at the first failure, then the final flush |
| EdiDecoder.StepLin | services/edi_decoder.py:27-30 | a LIN line fails on an incomplete record, appends a complete one, and opens an empty record |
| EdiDecoder.RunLinLine | services/edi_decoder.py:27-30 | the same, for the rest of the run |
| EdiDecoder.RunAppend | services/edi_decoder.py:25-45 | running two stretches of lines is running the first, then the second from where the first stopped |
| EdiDecoder.IgnoredLines | services/edi_decoder.py:25-45 | unrecognized lines (PCI, blank, unknown) leave the state as it is |
| EdiDecoder.NothingRecognized | services/edi_decoder.py:20-50 | a text without a recognized line, the empty text included, decodes to no records |
| EdiDecoder.StepKeepsItems | services/edi_decoder.py:26-45 | one line never drops or reorders the records already decoded |
| EdiDecoder.RunKeepsItems | services/edi_decoder.py:25-45 | the records decoded so far stay a prefix of the result, so the output follows the order of the LIN lines |
| EdiDecoder.CargoTypeFieldOf | services/edi_decoder.py:33 | in `PAC+++<t>:<rest>` the cargo type field is exactly `<t>` |
| EdiDecoder.PacTypeLine | services/edi_decoder.py:32-33 | `PAC+++<t>:…` sets the cargo type to `<t>` and changes nothing else |
| EdiDecoder.CountFieldOf | services/edi_decoder.py:36 | in `PAC+<count>+<rest>` the count field is exactly `<count>` |
| EdiDecoder.PacCountLine | services/edi_decoder.py:35-36 | `PAC+<count>+…` sets the package count to `int(<count>)` and fails when `int` rejects it |
| EdiDecoder.ReferenceLine | services/edi_decoder.py:38-45 | `RFF+<q>:<v>` sets the reference of `q` to the unescaped `v`, closing quote included, and overwrites an earlier value |
| FormValidator.CheckReference | services/form_validator.py:72-77 | an optional field fails exactly when it is non-blank and not alphanumeric once stripped; otherwise a non-blank field is stored stripped and a blank one kept |
| FormValidator.NormalizeReference | services/form_validator.py:72-91 | one optional-field block of the loop computes `CheckReference` and leaves the item as it was on failure |
| FormValidator.NormalizeItem | services/form_validator.py:33-91 | the loop body updates the item rule by rule and computes `CheckItem` |
| FormValidator.CheckItemErrors | services/form_validator.py:34-91 | each error is raised exactly when its rule is the first one the item breaks: required cargo type, required count, cargo type, count, then container, master bill and house bill numbers |
| FormValidator.NumberFormatErrors | services/form_validator.py:72-91 | the three optional-field checks fail at the first field that does not pass its own check |
| FormValidator.CheckReferencesAll | services/form_validator.py:72-91 | the optional-field checks pass exactly when each field passes on its own, and then store each field normalised |
| FormValidator.CheckItemAccepts | services/form_validator.py:33-91 | an item passes the body exactly when it is acceptable, and is then left in its normalised form |
| FormValidator.NormalizedWellFormed | services/form_validator.py:50-91 | an acceptable item, normalised, has a listed cargo type, a positive count, and blank or stripped alphanumeric references |
| FormValidator.WellFormedIsFixed | services/form_validator.py:50-91 | a well-formed item passes the rules unchanged |
| FormValidator.ValidateCargoItems | services/form_validator.py:27-94 | the loop over the array overwrites the items in place and computes `ValidateFrom` |
| FormValidator.ValidateForm | services/form_validator.py:16-94 | an empty list is rejected with the empty-list error; otherwise the result is that of the item loop, and a passing list is all well formed |
| FormValidator.ValidateFromSpec | services/form_validator.py:32-91 | the loop keeps the items before its start; a pass means every item passed the body; a failure happens at some item with every earlier one passed and every later one untouched |
| FormValidator.ValidatePasses | services/form_validator.py:32-94 | the list passes exactly when every item is acceptable, and then every item is normalised and well formed |
| FormValidator.ValidateFailsAtFirst | services/form_validator.py:32-91 | a failure happens exactly at the first unacceptable item, with its error; earlier items are normalised and later items untouched |
| FormValidator.ValidateIdempotent | services/form_validator.py:50-91 | validating a list the rules already normalised passes and changes nothing |
| Codec.UnescapeEscape | services/edi_decoder.py:15-17 | `unescape_edi_content` undoes `escape_edi_content` on every text, including one that holds `?` |
| Codec.EscapeKeeps | services/edi_generator.py:16-18 | escaping adds only `?` and `'`: any other character occurs in the escaped text exactly when it occurs in the text |
| Codec.TrailingReleaseMisread | services/edi_generator.py:16-18 | a value ending with `?` runs into the terminator: `A?` is read back as `A'` |
| Codec.GeneratedLinesRead | services/edi_generator.py:42-44 | the generated text strips to itself, splits back into exactly the generated lines, keeps them all as non-blank, and has no empty-line run |
| Codec.GeneratedQuotes | services/edi_validator.py:47-50 | the generated lines draw no terminator diagnostic |
| Codec.RffAccepted | services/edi_validator.py:99-113 | the RFF line of a non-empty ASCII alphanumeric reference passes the reference check |
| Codec.ScanNumbered | services/edi_validator.py:55-152 | the walk over generated blocks reports nothing |
| Codec.GeneratedTextValidates | services/edi_validator.py:11-155 | `validate_edi_message` accepts the text the generator writes for items with a count of at least 1, a cargo type without a line feed, and ASCII alphanumeric references |
| Codec.BlockRead | services/edi_decoder.py:25-45 | reading one generated block moves the decoder to a state holding that item as decoded |
| Codec.RunNumbered | services/edi_decoder.py:25-48 | reading the generated blocks appends their decoded items, in order, after what the starting state flushes |
| Codec.GeneratedTextDecodes | services/edi_decoder.py:20-50 | decoding the generated text gives as many items, in order, with the same cargo type and count; each written reference comes back with its terminator attached, and an empty one as absent |

## Left out

- Logging (`log_edi` in funcs/utils/edi_logging.py) is left out. It is output only and never affects a result.
- The HTTP layer is left out: api/, main.py, routing, CORS, status codes and the captured log lines.
- Pydantic's record construction is represented as a result.
  - A decoded record missing a required field is `IncompleteItem`.
  - The form rules' `isinstance` checks, and the "Cargo type must be a string" and "Package count must be a valid integer" errors, are left out. A model count is always an integer and a model string is always a string.
- The source spells the fields differently from file to file: `number_of_packages` / `package_count`, and `*_of_lading_number` / `*_bill_number`.
  - The model uses one record with one name per field.
  - The `hasattr` failure that this mismatch causes in services/form_validator.py:39 is left out.
- Unicode is simplified.
  - Whitespace is the ASCII set that `str.strip` and `\s` use.
  - `upper` changes only ASCII letters.
  - '\n' is the only line separator `splitlines` knows.
  - `int` accepts an optional sign and ASCII digits around whitespace, without underscores or non-ASCII digits.
- The regular expressions are replaced by the predicates and functions they stand for. The diagnostic's message strings are replaced by values, and the order of the offending characters, which comes from a Python `set`, is a set.
- Codec.GeneratedTextDecodes: states the round trip for items whose cargo type holds no ':', '+' or line feed and whose references hold no line feed and do not end with `?`. Outside these conditions the generated text is read back differently.
- Codec.GeneratedTextValidates: states acceptance only for items meeting the conditions in its row. Other items may or may not be accepted.
