/**
 * The handful of Python string operations the codec is written with, over
 * `string` (= `seq<char>`): `strip`, `rstrip`, `upper`, `startswith`,
 * `endswith`, `in`, `split` (by field and once), `splitlines`, `"\n".join`,
 * `int(...)` and integer formatting. Only ASCII whitespace, ASCII digits and
 * ASCII case are modelled, and '\n' is the only line separator.
 */
module Text {
  import opened Wrappers

  /** ASCII whitespace as Python's `str.strip()` and the regex class `\s` see it:
      space, '\t' '\n' '\v' '\f' '\r' and the separators '\x1c'..'\x1f'. */
  predicate IsWhitespace(c: char) {
    c == ' ' || ('\t' <= c <= '\r') || ('\U{1C}' <= c <= '\U{1F}')
  }

  predicate IsAsciiDigit(c: char) { '0' <= c <= '9' }

  predicate IsAsciiLetter(c: char) { ('a' <= c <= 'z') || ('A' <= c <= 'Z') }

  /** The regex class `[a-zA-Z0-9]`. */
  predicate IsAsciiAlnum(c: char) { IsAsciiDigit(c) || IsAsciiLetter(c) }

  /** Every character matches `[a-zA-Z0-9]` (vacuously true of the empty string). */
  predicate IsAsciiAlnumString(s: string) {
    forall i :: 0 <= i < |s| ==> IsAsciiAlnum(s[i])
  }

  predicate IsDigits(s: string) {
    forall i :: 0 <= i < |s| ==> IsAsciiDigit(s[i])
  }

  /** Python's `s.startswith(prefix)`. */
  predicate StartsWith(s: string, prefix: string) {
    prefix <= s
  }

  /** Python's `s.endswith(suffix)`. */
  predicate EndsWith(s: string, suffix: string) {
    |suffix| <= |s| && s[|s| - |suffix|..] == suffix
  }

  /** `p` occurs in `s` starting at index `k`. */
  predicate OccursAt(s: string, p: string, k: nat) {
    k + |p| <= |s| && s[k..k + |p|] == p
  }

  /** Python's `p in s`. */
  predicate Contains(s: string, p: string) {
    exists k :: 0 <= k <= |s| - |p| && OccursAt(s, p, k)
  }

  // ---------------------------------------------------------------------------
  // strip, rstrip, upper

  function TrimStart(s: string): (r: string)
    ensures |r| <= |s| && r == s[|s| - |r|..]
    ensures forall i :: 0 <= i < |s| - |r| ==> IsWhitespace(s[i])
    ensures r == [] || !IsWhitespace(r[0])
    decreases |s|
  {
    if s != [] && IsWhitespace(s[0]) then TrimStart(s[1..]) else s
  }

  function TrimEnd(s: string): (r: string)
    ensures |r| <= |s| && r == s[..|r|]
    ensures forall i :: |r| <= i < |s| ==> IsWhitespace(s[i])
    ensures r == [] || !IsWhitespace(r[|r| - 1])
    decreases |s|
  {
    if s != [] && IsWhitespace(s[|s| - 1]) then TrimEnd(s[..|s| - 1]) else s
  }

  /** Text that starts and ends with a non-whitespace character. */
  predicate Trimmed(s: string) {
    s != [] && !IsWhitespace(s[0]) && !IsWhitespace(s[|s| - 1])
  }

  /** Python's `s.strip()`: the result is empty exactly when `s` is all
      whitespace, otherwise it starts and ends with a non-whitespace character,
      and a string that already does so is left unchanged. */
  function Strip(s: string): (r: string)
    ensures r == [] <==> forall i :: 0 <= i < |s| ==> IsWhitespace(s[i])
    ensures r != [] ==> Trimmed(r)
    ensures Trimmed(s) ==> r == s
  {
    var t := TrimStart(s);
    var r := TrimEnd(t);
    assert r != [] ==> r[0] == t[0];
    r
  }

  /** Stripping twice is stripping once. */
  lemma StripIdempotent(s: string)
    ensures Strip(Strip(s)) == Strip(s)
  {
  }

  predicate AllWhitespace(t: string) {
    forall i :: 0 <= i < |t| ==> IsWhitespace(t[i])
  }

  /** `r` is `s` with the first `a` characters and some trailing ones cut
      off, all of them whitespace. */
  predicate IsCut(s: string, r: string, a: int) {
    0 <= a && a + |r| <= |s| && r == s[a..a + |r|]
      && AllWhitespace(s[..a]) && AllWhitespace(s[a + |r|..])
  }

  /** `Strip(s)` is `s` with a leading and a trailing run of whitespace cut
      off; with the `Trimmed` clause of `Strip`, those runs are the longest. */
  lemma StripIsCut(s: string)
    ensures exists a :: IsCut(s, Strip(s), a)
  {
    var t := TrimStart(s);
    var r := TrimEnd(t);
    assert r == Strip(s);
    var a := |s| - |t|;
    TrimCut(s, t, r, a);
  }

  lemma TrimCut(s: string, t: string, r: string, a: int)
    requires 0 <= a <= |s| && t == s[a..] && AllWhitespace(s[..a])
    requires |r| <= |t| && r == t[..|r|]
    requires forall i :: |r| <= i < |t| ==> IsWhitespace(t[i])
    ensures IsCut(s, r, a)
  {
  }

  /** Python's `s.rstrip(c)`: drops every trailing `c`, and nothing else. */
  function TrimEndChar(s: string, c: char): (r: string)
    ensures |r| <= |s| && r == s[..|r|]
    ensures forall i :: |r| <= i < |s| ==> s[i] == c
    ensures r == [] || r[|r| - 1] != c
    decreases |s|
  {
    if s != [] && s[|s| - 1] == c then TrimEndChar(s[..|s| - 1], c) else s
  }

  /** Removing every trailing `c` from `v` followed by `c`s gives back `v`,
      when `v` does not itself end with `c`. */
  lemma {:induction false} TrimEndCharAppend(v: string, t: string, c: char)
    requires forall i :: 0 <= i < |t| ==> t[i] == c
    requires v == [] || v[|v| - 1] != c
    ensures TrimEndChar(v + t, c) == v
    decreases |t|
  {
    if t != [] {
      var s := v + t;
      assert s[..|s| - 1] == v + t[..|t| - 1];
      TrimEndCharAppend(v, t[..|t| - 1], c);
    } else {
      assert v + t == v;
    }
  }

  function UpperChar(c: char): char {
    if 'a' <= c <= 'z' then (c as int - 32) as char else c
  }

  /** Python's `s.upper()`, restricted to ASCII letters. */
  function ToUpper(s: string): (r: string)
    ensures |r| == |s|
    decreases |s|
  {
    if s == [] then [] else [UpperChar(s[0])] + ToUpper(s[1..])
  }

  /** Text without lower-case ASCII letters is its own upper case. */
  lemma {:induction false} UpperKeeps(s: string)
    requires forall k :: 0 <= k < |s| ==> !('a' <= s[k] <= 'z')
    ensures ToUpper(s) == s
    decreases |s|
  {
    if s != [] {
      UpperKeeps(s[1..]);
    }
  }

  // ---------------------------------------------------------------------------
  // find and split

  lemma OccursAtTail(s: string, p: string, k: nat)
    requires s != []
    ensures OccursAt(s[1..], p, k) <==> OccursAt(s, p, k + 1)
  {
    if k + 1 + |p| <= |s| {
      assert s[1..][k..k + |p|] == s[k + 1..k + 1 + |p|];
    }
  }

  /** Python's `s.find(p)`: the first index at which `p` occurs, None for -1. */
  function IndexOf(s: string, p: string): (r: Option<nat>)
    requires p != []
    ensures r.Some? ==> OccursAt(s, p, r.value)
    ensures r.Some? ==> forall k :: 0 <= k < r.value ==> !OccursAt(s, p, k)
    ensures r.None? <==> !Contains(s, p)
    decreases |s|
  {
    if |s| < |p| then None
    else if p <= s then
      assert OccursAt(s, p, 0);
      Some(0)
    else
      assert !OccursAt(s, p, 0);
      match IndexOf(s[1..], p)
      case None =>
        assert !Contains(s, p) by {
          forall k | 0 <= k <= |s| - |p| ensures !OccursAt(s, p, k) {
            if k > 0 { OccursAtTail(s, p, k - 1); }
          }
        }
        None
      case Some(j) =>
        OccursAtTail(s, p, j);
        assert forall k :: 0 <= k < j + 1 ==> !OccursAt(s, p, k) by {
          forall k | 0 <= k < j + 1 ensures !OccursAt(s, p, k) {
            if k > 0 { OccursAtTail(s, p, k - 1); }
          }
        }
        Some(j + 1)
  }

  /** Python's `s.split(sep)[k]`; None where Python raises IndexError. */
  function Field(s: string, sep: string, k: nat): (r: Option<string>)
    requires sep != []
    ensures k == 0 ==> r.Some? && r.value <= s
    decreases |s|
  {
    match IndexOf(s, sep)
    case None => if k == 0 then Some(s) else None
    case Some(i) => if k == 0 then Some(s[..i]) else Field(s[i + |sep|..], sep, k - 1)
  }

  /** Python's `s.split(sep, 1)[1]`, called only on strings that contain `sep`. */
  function After(s: string, sep: string): (r: string)
    requires sep != []
    ensures Contains(s, sep) ==> |r| + |sep| <= |s| && r == s[|s| - |r|..]
  {
    match IndexOf(s, sep)
    case None => []
    case Some(i) => s[i + |sep|..]
  }

  /** `s.split(sep)[1]` exists exactly when `sep` occurs in `s`. */
  lemma FieldOneSome(s: string, sep: string)
    requires sep != []
    ensures Field(s, sep, 1).Some? <==> Contains(s, sep)
  {
  }

  /** `IndexOf` pinned down: the first occurrence is where it first occurs. */
  lemma IndexOfIs(s: string, p: string, i: nat)
    requires p != [] && OccursAt(s, p, i)
    requires forall k :: 0 <= k < i ==> !OccursAt(s, p, k)
    ensures IndexOf(s, p) == Some(i)
  {
    assert Contains(s, p);
  }

  /** The first `sep` of a string that starts with `head + sep`, where `head`
      holds no `sep`, is right after `head`. */
  lemma IndexOfAfterHead(s: string, head: string, c: char)
    requires StartsWith(s, head + [c]) && c !in head
    ensures IndexOf(s, [c]) == Some(|head|)
  {
    assert s[|head|] == (head + [c])[|head|];
    assert OccursAt(s, [c], |head|);
    forall k | 0 <= k < |head| ensures !OccursAt(s, [c], k) {
      assert s[k] == head[k];
    }
    IndexOfIs(s, [c], |head|);
  }

  lemma NoCharNoOccurrence(s: string, c: char)
    requires c !in s
    ensures !Contains(s, [c])
  {
    forall k | 0 <= k <= |s| - 1 ensures !OccursAt(s, [c], k) {
      assert s[k..k + 1][0] == s[k];
      assert s[k] in s;
    }
  }

  // ---------------------------------------------------------------------------
  // numbers

  function DigitChar(d: nat): (c: char)
    requires d < 10
    ensures IsAsciiDigit(c)
  {
    ('0' as int + d) as char
  }

  function DigitValue(c: char): nat
    requires IsAsciiDigit(c)
  {
    c as int - '0' as int
  }

  /** The value of a decimal digit string, as Python's `int` reads it (leading
      zeros allowed, the empty string reads as 0). */
  function DigitsValue(ds: string): nat
    requires IsDigits(ds)
    decreases |ds|
  {
    if ds == [] then 0 else DigitsValue(ds[..|ds| - 1]) * 10 + DigitValue(ds[|ds| - 1])
  }

  /** Python's `str(n)` for a non-negative integer: a non-empty digit string
      that reads back as `n`. */
  function NatToString(n: nat): (r: string)
    ensures r != [] && IsDigits(r) && DigitsValue(r) == n
    decreases n
  {
    if n < 10 then
      [DigitChar(n)]
    else
      var r := NatToString(n / 10) + [DigitChar(n % 10)];
      assert r[..|r| - 1] == NatToString(n / 10);
      r
  }

  /** Python's `int(s)`: optional surrounding whitespace, an optional sign, then
      one or more ASCII digits; None where Python raises ValueError. */
  function ParseInt(s: string): Option<int> {
    var t := Strip(s);
    if t != [] && (t[0] == '+' || t[0] == '-') then
      var ds := t[1..];
      if ds != [] && IsDigits(ds) then
        var v: int := DigitsValue(ds);
        Some(if t[0] == '-' then -v else v)
      else None
    else if t != [] && IsDigits(t) then Some(DigitsValue(t))
    else None
  }

  /** Python's `str(n)` / f"{n}" for any integer: an optional minus sign,
      then decimal digits. */
  function IntToString(n: int): (r: string)
    ensures r != [] && (r[0] == '-' || IsAsciiDigit(r[0])) && IsAsciiDigit(r[|r| - 1])
  {
    if n < 0 then "-" + NatToString(-n) else NatToString(n)
  }

  /** `int(str(n)) == n`. */
  lemma ParseIntToString(n: int)
    ensures ParseInt(IntToString(n)) == Some(n)
  {
    var r := IntToString(n);
    assert Trimmed(r);
    assert Strip(r) == r;
    if n < 0 {
      assert r[1..] == NatToString(-n);
    }
  }

  lemma IntToStringChars(n: int)
    ensures forall k :: 0 <= k < |IntToString(n)| ==> IntToString(n)[k] == '-' || IsAsciiDigit(IntToString(n)[k])
  {
    var r := IntToString(n);
    if n < 0 {
      var ds := NatToString(-n);
      assert r == "-" + ds;
      forall k | 0 < k < |r| ensures IsAsciiDigit(r[k]) {
        assert r[k] == ds[k - 1];
      }
    }
  }

  /** The longest prefix of ASCII digits (what the regex `\d+` consumes). */
  function DigitRun(s: string): (r: string)
    ensures r <= s && IsDigits(r)
    ensures |r| == |s| || !IsAsciiDigit(s[|r|])
    decreases |s|
  {
    if s != [] && IsAsciiDigit(s[0]) then [s[0]] + DigitRun(s[1..]) else []
  }

  /** The digit run of digits followed by a non-digit is exactly those digits. */
  lemma {:induction false} DigitRunStops(ds: string, rest: string)
    requires IsDigits(ds)
    requires rest == [] || !IsAsciiDigit(rest[0])
    ensures DigitRun(ds + rest) == ds
    decreases |ds|
  {
    if ds != [] {
      assert (ds + rest)[1..] == ds[1..] + rest;
      DigitRunStops(ds[1..], rest);
      assert [ds[0]] + ds[1..] == ds;
    }
  }

  // ---------------------------------------------------------------------------
  // lines

  /** Python's `s.split('\n')`: at least one piece, none holding a '\n'. */
  function Split(s: string): (r: seq<string>)
    ensures |r| >= 1
    ensures forall k :: 0 <= k < |r| ==> '\n' !in r[k]
    decreases |s|
  {
    if s == [] then [[]]
    else
      var rest := Split(s[1..]);
      if s[0] == '\n' then [[]] + rest
      else [[s[0]] + rest[0]] + rest[1..]
  }

  /** Python's `s.splitlines()` where '\n' is the only separator: a final
      '\n' ends the last line rather than opening an empty one. */
  function SplitLines(s: string): (r: seq<string>)
    ensures s == [] <==> r == []
    ensures forall k :: 0 <= k < |r| ==> '\n' !in r[k]
  {
    if s == [] then []
    else if s[|s| - 1] == '\n' then Split(s[..|s| - 1])
    else Split(s)
  }

  /** Python's `"\n".join(ls)`. */
  function Join(ls: seq<string>): string
    decreases |ls|
  {
    if ls == [] then []
    else if |ls| == 1 then ls[0]
    else ls[0] + "\n" + Join(ls[1..])
  }

  lemma {:induction false} SplitNoNewline(x: string)
    requires '\n' !in x
    ensures Split(x) == [x]
    decreases |x|
  {
    if x != [] {
      SplitNoNewline(x[1..]);
      assert [x[0]] + x[1..] == x;
    }
  }

  lemma {:induction false} SplitAtNewline(x: string, y: string)
    requires '\n' !in x
    ensures Split(x + "\n" + y) == [x] + Split(y)
    decreases |x|
  {
    var s := x + "\n" + y;
    if x == [] {
      assert s[1..] == y;
    } else {
      assert s[1..] == x[1..] + "\n" + y;
      SplitAtNewline(x[1..], y);
      assert [x[0]] + x[1..] == x;
    }
  }

  /** Splitting undoes joining, for lines without a '\n'. */
  lemma {:induction false} SplitJoin(ls: seq<string>)
    requires |ls| >= 1
    requires forall k :: 0 <= k < |ls| ==> '\n' !in ls[k]
    ensures Split(Join(ls)) == ls
    decreases |ls|
  {
    if |ls| == 1 {
      SplitNoNewline(ls[0]);
    } else {
      SplitJoin(ls[1..]);
      SplitAtNewline(ls[0], Join(ls[1..]));
      assert [ls[0]] + ls[1..] == ls;
    }
  }

  /** Joining two non-empty runs of lines puts one '\n' between them. */
  lemma {:induction false} JoinAppend(a: seq<string>, b: seq<string>)
    requires a != [] && b != []
    ensures Join(a + b) == Join(a) + "\n" + Join(b)
    decreases |a|
  {
    if |a| == 1 {
      assert (a + b)[1..] == b;
    } else {
      assert (a + b)[1..] == a[1..] + b;
      JoinAppend(a[1..], b);
    }
  }

  /** In a join of lines that each start with a visible character, every
      '\n' is followed by a visible character. */
  lemma {:induction false} JoinNewlineFollowedByText(ls: seq<string>, i: nat)
    requires forall k :: 0 <= k < |ls| ==> ls[k] != [] && '\n' !in ls[k] && !IsWhitespace(ls[k][0])
    requires i < |Join(ls)|
    ensures Join(ls)[i] == '\n' ==> i + 1 < |Join(ls)| && !IsWhitespace(Join(ls)[i + 1])
    decreases |ls|
  {
    if |ls| == 1 {
      assert Join(ls)[i] in ls[0];
    } else {
      var x := ls[0];
      var rest := Join(ls[1..]);
      assert Join(ls) == x + "\n" + rest;
      if i < |x| {
        assert Join(ls)[i] == x[i];
        assert x[i] in x;
      } else if i == |x| {
        JoinEnds(ls[1..]);
        assert Join(ls)[i + 1] == rest[0];
      } else {
        assert Join(ls)[i] == rest[i - |x| - 1];
        JoinNewlineFollowedByText(ls[1..], i - |x| - 1);
        assert i - |x| - 1 + 1 < |rest| ==> Join(ls)[i + 1] == rest[i - |x|];
      }
    }
  }

  /** A join of non-empty lines starts with the first line's first character
      and ends with the last line's last character. */
  lemma {:induction false} JoinEnds(ls: seq<string>)
    requires |ls| >= 1
    requires forall k :: 0 <= k < |ls| ==> ls[k] != []
    ensures Join(ls) != []
    ensures Join(ls)[0] == ls[0][0]
    ensures Join(ls)[|Join(ls)| - 1] == ls[|ls| - 1][|ls[|ls| - 1]| - 1]
    decreases |ls|
  {
    if |ls| > 1 {
      JoinEnds(ls[1..]);
    }
  }
}
