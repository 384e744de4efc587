/**
 * The slice of Python's `str` semantics that the command parsers rely on,
 * restricted to ASCII: character classes, `lower()`, `strip()`, `split()`,
 * `split(sep)`, the `in` substring test, `"".join` of digits, `int()` of a
 * digit run and `str()` of a non-negative integer.
 */
module Text {
  import opened Wrappers

  // ---------------------------------------------------------------------
  // Character classes (ASCII)
  // ---------------------------------------------------------------------

  /** Python's `str.isspace()` / regex `\s` on ASCII: TAB, LF, VT, FF, CR, the
      four information separators 0x1C..0x1F, and SPACE. */
  predicate IsSpace(c: char) {
    (9 <= c as int <= 13) || (28 <= c as int <= 32)
  }

  /** `str.isdigit()` / regex `\d` on ASCII. */
  predicate IsDigit(c: char) {
    '0' <= c <= '9'
  }

  /** `str.isupper()` of a single ASCII character. */
  predicate IsUpper(c: char) {
    'A' <= c <= 'Z'
  }

  /** An ASCII letter, which is what `[A-Z]` and `[a-z]` each match under `re.IGNORECASE`. */
  predicate IsLetter(c: char) {
    'A' <= c <= 'Z' || 'a' <= c <= 'z'
  }

  function LowerChar(c: char): (d: char)
    ensures IsUpper(c) ==> 'a' <= d <= 'z' && d as int == c as int + 32
    ensures !IsUpper(c) ==> d == c
  {
    if IsUpper(c) then (c as int + 32) as char else c
  }

  /** `str.lower()` on ASCII text. */
  function Lower(s: string): (r: string)
    ensures |r| == |s|
    ensures forall i :: 0 <= i < |s| ==> r[i] == LowerChar(s[i])
  {
    seq(|s|, i requires 0 <= i < |s| => LowerChar(s[i]))
  }

  // ---------------------------------------------------------------------
  // Substring search: Python's `t in s` and `s.find(t)`
  // ---------------------------------------------------------------------

  /** `t` occurs in `s` starting at index `i`. */
  predicate OccursAt(s: string, t: string, i: nat) {
    i + |t| <= |s| && s[i..i + |t|] == t
  }

  /** `s.startswith(p)`. */
  predicate StartsWith(s: string, p: string) {
    |p| <= |s| && s[..|p|] == p
  }

  /** A text glued after a prefix can be read back after it. */
  lemma Glued(p: string, x: string)
    ensures StartsWith(p + x, p) && (p + x)[|p|..] == x
  {
    assert (p + x)[..|p|] == p;
  }

  /** Python's `t in s`. */
  predicate Contains(s: string, t: string) {
    exists i | 0 <= i <= |s| :: OccursAt(s, t, i)
  }

  /** The first occurrence of `t` in `s` at or after `from`. */
  function IndexFrom(s: string, t: string, from: nat): (r: Option<nat>)
    decreases |s| - from
    ensures r.Some? ==> from <= r.value && OccursAt(s, t, r.value)
    ensures r.Some? ==> forall j :: from <= j < r.value ==> !OccursAt(s, t, j)
    ensures r.None? ==> forall j :: from <= j ==> !OccursAt(s, t, j)
  {
    if from + |t| > |s| then None
    else if OccursAt(s, t, from) then Some(from)
    else IndexFrom(s, t, from + 1)
  }

  /** The first occurrence of `t` in `s` (`s.find(t)`, with `None` for -1). */
  function IndexOf(s: string, t: string): (r: Option<nat>)
    ensures r.Some? <==> Contains(s, t)
    ensures r.Some? ==> OccursAt(s, t, r.value) && forall j :: 0 <= j < r.value ==> !OccursAt(s, t, j)
  {
    var r := IndexFrom(s, t, 0);
    assert r.Some? ==> OccursAt(s, t, r.value) && r.value <= |s|;
    r
  }

  /** Substring containment is transitive: a text containing `t` contains every substring of `t`. */
  lemma ContainsTrans(s: string, t: string, u: string)
    requires Contains(s, t) && Contains(t, u)
    ensures Contains(s, u)
  {
    var i :| 0 <= i <= |s| && OccursAt(s, t, i);
    var j :| 0 <= j <= |t| && OccursAt(t, u, j);
    assert t == s[i..i + |t|];
    forall k | 0 <= k < |u|
      ensures s[i + j + k] == u[k]
    {
      assert u[k] == t[j + k];
    }
    assert s[i + j..i + j + |u|] == u;
    assert OccursAt(s, u, i + j);
  }

  /** `t` does not occur where the first character already differs. */
  lemma MismatchAt(s: string, t: string, j: nat)
    requires t != [] && j < |s| && s[j] != t[0]
    ensures !OccursAt(s, t, j)
  {
  }

  lemma SliceOfSlice(s: string, a: nat, b: nat, i: nat, j: nat)
    requires a <= b <= |s| && i <= j <= b - a
    ensures s[a..b][i..j] == s[a + i..a + j]
  {
    forall k | 0 <= k < j - i
      ensures s[a..b][i..j][k] == s[a + i..a + j][k]
    {
    }
  }

  /** What does not occur in the whole does not occur in a slice. */
  lemma SliceAbsent(s: string, a: nat, b: nat, t: string)
    requires a <= b <= |s| && !Contains(s, t)
    ensures !Contains(s[a..b], t)
  {
    forall i | 0 <= i <= b - a
      ensures !OccursAt(s[a..b], t, i)
    {
      if i + |t| <= b - a {
        SliceOfSlice(s, a, b, i, i + |t|);
        assert OccursAt(s[a..b], t, i) <==> OccursAt(s, t, a + i);
        assert 0 <= a + i <= |s|;
      }
    }
  }

  // ---------------------------------------------------------------------
  // Runs of characters of one class
  // ---------------------------------------------------------------------

  /** `[.,;!?]`, the punctuation that ends an update value. */
  predicate IsPunct(c: char) {
    c == '.' || c == ',' || c == ';' || c == '!' || c == '?'
  }

  /** The character classes the parsers repeat: `\s`, `\d`, a letter, `\S`, `[^.,;!?]`. */
  datatype CharClass = Space | Digit | Letter | NotSpace | NotPunct

  predicate InClass(c: char, cls: CharClass) {
    match cls
    case Space => IsSpace(c)
    case Digit => IsDigit(c)
    case Letter => IsLetter(c)
    case NotSpace => !IsSpace(c)
    case NotPunct => !IsPunct(c)
  }

  /** The length of the longest run of `cls` characters starting at `i`:
      what a greedy `cls+` / `cls*` consumes. */
  function Run(s: string, i: nat, cls: CharClass): (r: nat)
    requires i <= |s|
    decreases |s| - i
    ensures i + r <= |s|
    ensures forall k :: i <= k < i + r ==> InClass(s[k], cls)
    ensures i + r < |s| ==> !InClass(s[i + r], cls)
  {
    if i < |s| && InClass(s[i], cls) then 1 + Run(s, i + 1, cls) else 0
  }

  /** A run is pinned down by its characters and the one that stops it. */
  lemma {:induction false} RunIs(s: string, i: nat, cls: CharClass, n: nat)
    requires i + n <= |s|
    requires forall k :: i <= k < i + n ==> InClass(s[k], cls)
    requires i + n < |s| ==> !InClass(s[i + n], cls)
    decreases n
    ensures Run(s, i, cls) == n
  {
    if n > 0 {
      RunIs(s, i + 1, cls, n - 1);
    }
  }

  /** The number of trailing `cls` characters of `s[..j]`. */
  function RunBack(s: string, j: nat, cls: CharClass): (r: nat)
    requires j <= |s|
    ensures r <= j
    ensures forall k :: j - r <= k < j ==> InClass(s[k], cls)
    ensures r < j ==> !InClass(s[j - r - 1], cls)
  {
    if j > 0 && InClass(s[j - 1], cls) then 1 + RunBack(s, j - 1, cls) else 0
  }

  // ---------------------------------------------------------------------
  // strip()
  // ---------------------------------------------------------------------

  /** Text with no whitespace at either end. */
  predicate IsStripped(s: string) {
    s == [] || (!IsSpace(s[0]) && !IsSpace(s[|s| - 1]))
  }

  /** Python's `str.strip()`: `s[a..b]`, where `s[..a]` and `s[b..]` are all
      whitespace and the kept part neither starts nor ends with whitespace. */
  function Strip(s: string): (r: string)
    ensures IsStripped(r)
    ensures exists a, b :: 0 <= a <= b <= |s| && r == s[a..b] && StripCut(s, a, b)
    ensures Run(s, 0, Space) == |s| ==> r == []
    ensures Run(s, 0, Space) < |s| ==>
              var a := Run(s, 0, Space);
              var b := |s| - RunBack(s, |s|, Space);
              a < b && r == s[a..b]
  {
    var a := Run(s, 0, Space);
    if a == |s| then
      assert StripCut(s, |s|, |s|);
      []
    else
      var b := |s| - RunBack(s, |s|, Space);
      assert a < b;
      assert StripCut(s, a, b);
      s[a..b]
  }

  /** `s[..a]` and `s[b..]` are whitespace only. */
  predicate StripCut(s: string, a: nat, b: nat)
    requires a <= b <= |s|
  {
    (forall k :: 0 <= k < a ==> IsSpace(s[k])) && (forall k :: b <= k < |s| ==> IsSpace(s[k]))
  }

  /** Stripping cannot introduce an occurrence of `t`. */
  lemma StripKeepsAbsent(s: string, t: string)
    requires !Contains(s, t)
    ensures !Contains(Strip(s), t)
  {
    var a, b :| 0 <= a <= b <= |s| && Strip(s) == s[a..b] && StripCut(s, a, b);
    SliceAbsent(s, a, b, t);
  }

  /** Stripping text that is already stripped changes nothing. */
  lemma StripStripped(s: string)
    requires IsStripped(s)
    ensures Strip(s) == s
  {
    if s != [] {
      assert Run(s, 0, Space) == 0;
      assert RunBack(s, |s|, Space) == 0;
    }
  }

  /** `strip()` is idempotent. */
  lemma StripIdempotent(s: string)
    ensures Strip(Strip(s)) == Strip(s)
  {
    StripStripped(Strip(s));
  }

  /** Lower-casing twice is lower-casing once. */
  lemma LowerIdempotent(s: string)
    ensures Lower(Lower(s)) == Lower(s)
  {
  }

  lemma {:induction false} RunSameSpaces(s: string, t: string, i: nat)
    requires |s| == |t| && i <= |s|
    requires forall k :: 0 <= k < |s| ==> (IsSpace(s[k]) <==> IsSpace(t[k]))
    ensures Run(s, i, Space) == Run(t, i, Space)
    decreases |s| - i
  {
    if i < |s| {
      RunSameSpaces(s, t, i + 1);
    }
  }

  lemma {:induction false} RunBackSameSpaces(s: string, t: string, j: nat)
    requires |s| == |t| && j <= |s|
    requires forall k :: 0 <= k < |s| ==> (IsSpace(s[k]) <==> IsSpace(t[k]))
    ensures RunBack(s, j, Space) == RunBack(t, j, Space)
  {
    if j > 0 {
      RunBackSameSpaces(s, t, j - 1);
    }
  }

  /** `strip()` and `lower()` commute: case mapping never turns a character
      into whitespace or whitespace into anything else. */
  lemma StripLower(s: string)
    ensures Strip(Lower(s)) == Lower(Strip(s))
  {
    var l := Lower(s);
    var a := Run(s, 0, Space);
    var b := |s| - RunBack(s, |s|, Space);
    assert Run(l, 0, Space) == a && |s| - RunBack(l, |l|, Space) == b by {
      LowerKeepsSpaces(s);
      RunSameSpaces(l, s, 0);
      RunBackSameSpaces(l, s, |s|);
    }
    if a < |s| {
      LowerSlice(s, a, b);
    }
  }

  /** A lone whitespace character strips to nothing. */
  lemma StripOfBlank(c: char)
    requires IsSpace(c)
    ensures Strip([c]) == []
  {
    var t := [c];
    assert !IsStripped(t);
    var a, b :| 0 <= a <= b <= |t| && Strip(t) == t[a..b] && StripCut(t, a, b);
    assert a < b ==> t[a..b] == t;
  }

  lemma LowerKeepsSpaces(s: string)
    ensures |Lower(s)| == |s|
    ensures forall k :: 0 <= k < |s| ==> (IsSpace(Lower(s)[k]) <==> IsSpace(s[k]))
  {
  }

  lemma LowerSlice(s: string, a: nat, b: nat)
    requires a <= b <= |s|
    ensures Lower(s)[a..b] == Lower(s[a..b])
  {
  }

  // ---------------------------------------------------------------------
  // split(): maximal runs of non-whitespace
  // ---------------------------------------------------------------------

  /** A `split()` token: non-empty and free of whitespace. */
  predicate IsWord(w: string) {
    w != [] && forall k :: 0 <= k < |w| ==> !IsSpace(w[k])
  }

  /** Python's `s.split()` with no argument: the maximal whitespace-free runs,
      in order (see WordsOfJoin); there are none exactly when `s` is blank. */
  function Words(s: string): (ws: seq<string>)
    decreases |s|
    ensures forall k :: 0 <= k < |ws| ==> IsWord(ws[k])
    ensures ws == [] <==> forall k :: 0 <= k < |s| ==> IsSpace(s[k])
  {
    if s == [] then []
    else if IsSpace(s[0]) then
      assert forall k :: 1 <= k < |s| ==> s[k] == s[1..][k - 1];
      Words(s[1..])
    else
      var n := Run(s, 0, NotSpace);
      [s[..n]] + Words(s[n..])
  }

  /** A whitespace character in front of a text adds no token. */
  lemma WordsOfSpacePrefix(c: char, s: string)
    requires IsSpace(c)
    ensures Words([c] + s) == Words(s)
  {
    assert ([c] + s)[1..] == s;
  }

  /** A single token is split off whole. */
  lemma WordsOfWord(w: string)
    requires IsWord(w)
    ensures Words(w) == [w]
  {
    RunOfWholeWord(w, 0);
    assert w[..|w|] == w;
    assert w[|w|..] == [];
  }

  lemma {:induction false} RunOfWholeWord(w: string, i: nat)
    requires IsWord(w) && i <= |w|
    decreases |w| - i
    ensures Run(w, i, NotSpace) == |w| - i
  {
    if i < |w| {
      assert InClass(w[i], NotSpace);
      RunOfWholeWord(w, i + 1);
    }
  }

  /** Tokens joined by single blanks split back into the same tokens: each
      token is a maximal whitespace-free run, taken in order. */
  lemma {:induction false} WordsOfJoin(ws: seq<string>)
    requires forall k :: 0 <= k < |ws| ==> IsWord(ws[k])
    decreases |ws|
    ensures Words(Join(ws, " ")) == ws
  {
    if |ws| == 1 {
      WordsOfWord(ws[0]);
    } else if |ws| > 1 {
      WordsOfJoin(ws[1..]);
      WordsOfLeadingWord(ws[0], ' ', Join(ws[1..], " "));
      assert ws[0] + " " + Join(ws[1..], " ") == ws[0] + [' '] + Join(ws[1..], " ");
      assert ws == [ws[0]] + ws[1..];
    }
  }

  /** A text that opens with a token `w` followed by whitespace splits into `w` first. */
  lemma {:induction false} WordsOfLeadingWord(w: string, c: char, rest: string)
    requires IsWord(w) && IsSpace(c)
    ensures Words(w + [c] + rest) == [w] + Words(rest)
  {
    var s := w + [c] + rest;
    RunOfWord(w, c, rest, 0);
    assert s[..|w|] == w;
    assert s[|w|..] == [c] + rest;
    assert ([c] + rest)[1..] == rest;
  }

  lemma {:induction false} RunOfWord(w: string, c: char, rest: string, i: nat)
    requires IsWord(w) && IsSpace(c) && i <= |w|
    ensures Run(w + [c] + rest, i, NotSpace) == |w| - i
    decreases |w| - i
  {
    var s := w + [c] + rest;
    if i < |w| {
      assert s[i] == w[i];
      RunOfWord(w, c, rest, i + 1);
    } else {
      assert s[i] == c;
    }
  }

  // ---------------------------------------------------------------------
  // split(sep)
  // ---------------------------------------------------------------------

  /** The part of `s` before the first `sep`, or all of `s`: `s.split(sep)[0]`. */
  function UpTo(s: string, sep: string): (r: string)
    ensures IndexOf(s, sep).None? ==> r == s
    ensures IndexOf(s, sep).Some? ==> r == s[..IndexOf(s, sep).value]
  {
    match IndexOf(s, sep)
    case None => s
    case Some(i) => s[..i]
  }

  /** Python's `s.split(sep)` for a non-empty separator: the pieces between
      successive non-overlapping occurrences of `sep`, scanning left to right. */
  function Split(s: string, sep: string): (parts: seq<string>)
    requires sep != []
    decreases |s|
    ensures |parts| >= 1 && parts[0] == UpTo(s, sep)
    ensures |parts| >= 2 <==> Contains(s, sep)
  {
    match IndexOf(s, sep)
    case None => [s]
    case Some(i) => [s[..i]] + Split(s[i + |sep|..], sep)
  }

  /** The inverse of `Split`: `sep.join(parts)`. */
  function Join(parts: seq<string>, sep: string): string
    decreases |parts|
  {
    if |parts| <= 1 then (if parts == [] then [] else parts[0])
    else parts[0] + sep + Join(parts[1..], sep)
  }

  /** `sep.join(s.split(sep)) == s`. */
  lemma {:induction false} JoinSplit(s: string, sep: string)
    requires sep != []
    ensures Join(Split(s, sep), sep) == s
    decreases |s|
  {
    match IndexOf(s, sep)
    case None =>
    case Some(i) =>
      var rest := s[i + |sep|..];
      JoinSplit(rest, sep);
      var parts := Split(s, sep);
      assert parts == [s[..i]] + Split(rest, sep);
      assert parts[1..] == Split(rest, sep);
      assert s[i..i + |sep|] == sep;
      assert s == s[..i] + s[i..i + |sep|] + rest;
  }

  /** No piece of `s.split(sep)` contains `sep`. */
  lemma {:induction false} SplitPiecesFree(s: string, sep: string, k: nat)
    requires sep != [] && k < |Split(s, sep)|
    ensures !Contains(Split(s, sep)[k], sep)
    decreases |s|
  {
    var r := IndexOf(s, sep);
    if r.None? {
      assert Split(s, sep) == [s];
    } else {
      var i := r.value;
      var rest := s[i + |sep|..];
      assert Split(s, sep) == [s[..i]] + Split(rest, sep);
      if k == 0 {
        NoOccurrenceInPrefix(s, sep, i);
      } else {
        SplitPiecesFree(rest, sep, k - 1);
      }
    }
  }

  lemma NoOccurrenceInPrefix(s: string, sep: string, i: nat)
    requires sep != [] && i <= |s| && forall j :: 0 <= j < i ==> !OccursAt(s, sep, j)
    ensures !Contains(s[..i], sep)
  {
    forall j | 0 <= j <= i
      ensures !OccursAt(s[..i], sep, j)
    {
      if j + |sep| <= i {
        assert s[..i][j..j + |sep|] == s[j..j + |sep|];
        assert j < i && !OccursAt(s, sep, j);
      }
    }
  }

  /** The second piece of `s.split(sep)` is the text after the first `sep`, up to the next. */
  lemma SplitSecond(s: string, sep: string)
    requires sep != [] && Contains(s, sep)
    ensures Split(s, sep)[1] == UpTo(s[IndexOf(s, sep).value + |sep|..], sep)
  {
  }

  // ---------------------------------------------------------------------
  // Digits
  // ---------------------------------------------------------------------

  /** `"".join(c for c in s if c.isdigit())`. */
  function Digits(s: string): (r: string)
    ensures forall k :: 0 <= k < |r| ==> IsDigit(r[k])
    ensures |r| <= |s|
  {
    if s == [] then []
    else (if IsDigit(s[0]) then [s[0]] else []) + Digits(s[1..])
  }

  /** Digit collection distributes over concatenation: the digits of every
      part of the text end up side by side. */
  lemma {:induction false} DigitsAppend(a: string, b: string)
    ensures Digits(a + b) == Digits(a) + Digits(b)
    decreases |a|
  {
    if a != [] {
      assert (a + b)[1..] == a[1..] + b;
      DigitsAppend(a[1..], b);
    } else {
      assert a + b == b;
    }
  }

  predicate AllDigits(s: string) {
    forall k :: 0 <= k < |s| ==> IsDigit(s[k])
  }

  /** Text without a digit character contributes nothing. */
  lemma {:induction false} DigitsNone(s: string)
    requires forall k :: 0 <= k < |s| ==> !IsDigit(s[k])
    ensures Digits(s) == []
    decreases |s|
  {
    if s != [] {
      DigitsNone(s[1..]);
    }
  }

  /** A digit string is its own digit collection. */
  lemma {:induction false} DigitsOfDigits(s: string)
    requires AllDigits(s)
    ensures Digits(s) == s
    decreases |s|
  {
    if s != [] {
      DigitsOfDigits(s[1..]);
    }
  }

  function DigitValue(c: char): nat
    requires IsDigit(c)
  {
    c as int - '0' as int
  }

  function DigitChar(d: nat): (c: char)
    requires d < 10
    ensures IsDigit(c) && DigitValue(c) == d
  {
    ('0' as int + d) as char
  }

  /** `int(s)` of a run of ASCII digits. */
  function DigitsValue(s: string): nat
    requires AllDigits(s)
    decreases |s|
  {
    if s == [] then 0 else DigitsValue(s[..|s| - 1]) * 10 + DigitValue(s[|s| - 1])
  }

  /** `str(n)` of a non-negative integer: decimal, no leading zero. */
  function NatToString(n: nat): (s: string)
    decreases n
  {
    if n < 10 then [DigitChar(n)] else NatToString(n / 10) + [DigitChar(n % 10)]
  }

  /** `str(n)` is a non-empty digit string without a leading zero, except for `"0"` itself. */
  lemma {:induction false} NatToStringShape(n: nat)
    ensures var s := NatToString(n); s != [] && AllDigits(s) && (s[0] == '0' <==> n == 0)
    decreases n
  {
    if n >= 10 {
      NatToStringShape(n / 10);
    }
  }

  /** `int(str(n)) == n`. */
  lemma {:induction false} DigitsValueOfNatToString(n: nat)
    ensures AllDigits(NatToString(n)) && DigitsValue(NatToString(n)) == n
    decreases n
  {
    NatToStringShape(n);
    if n >= 10 {
      var s := NatToString(n);
      DigitsValueOfNatToString(n / 10);
      assert s[..|s| - 1] == NatToString(n / 10);
    }
  }

  // ---------------------------------------------------------------------
  // re.search: the leftmost start position at which a pattern matches
  // ---------------------------------------------------------------------

  /** The match of the leftmost start position in `from..last` at which
      `at` (a pattern tried at one position) matches. */
  function Leftmost<T>(at: nat -> Option<T>, from: nat, last: nat): (r: Option<T>)
    decreases last - from
    ensures r.Some? ==> exists i :: from <= i <= last && at(i) == r && forall j :: from <= j < i ==> at(j).None?
    ensures r.None? ==> forall j :: from <= j <= last ==> at(j).None?
  {
    if from > last then None
    else if at(from).Some? then at(from)
    else Leftmost(at, from + 1, last)
  }

  // ---------------------------------------------------------------------
  // First key of an ordered table that occurs in a text
  // ---------------------------------------------------------------------

  /** Key `k` of `table` is the first, in declared order, that occurs in `text`. */
  predicate IsFirstHit(table: seq<(string, string)>, text: string, k: nat) {
    k < |table| && Contains(text, table[k].0)
    && forall j :: 0 <= j < k ==> !Contains(text, table[j].0)
  }

  /** The index of the first key of `table` that is a substring of `text`: the
      outcome of `for key, v in table.items(): if key in text: ...; break`. */
  function FirstHit(table: seq<(string, string)>, text: string): (r: Option<nat>)
    ensures r.Some? ==> IsFirstHit(table, text, r.value)
    ensures r.None? <==> forall j :: 0 <= j < |table| ==> !Contains(text, table[j].0)
  {
    FirstHitFrom(table, text, 0)
  }

  function FirstHitFrom(table: seq<(string, string)>, text: string, i: nat): (r: Option<nat>)
    requires forall j :: 0 <= j < i && j < |table| ==> !Contains(text, table[j].0)
    decreases |table| - i
    ensures r.Some? ==> IsFirstHit(table, text, r.value)
    ensures r.None? <==> forall j :: 0 <= j < |table| ==> !Contains(text, table[j].0)
  {
    if i >= |table| then None
    else if Contains(text, table[i].0) then Some(i)
    else FirstHitFrom(table, text, i + 1)
  }

  /** The first hit is unique: any index meeting the first-hit condition is it. */
  lemma FirstHitUnique(table: seq<(string, string)>, text: string, k: nat)
    requires IsFirstHit(table, text, k)
    ensures FirstHit(table, text) == Some(k)
  {
    var r := FirstHit(table, text);
    assert r.Some?;
    assert !(r.value < k) && !(k < r.value);
  }

  /** A key that contains an earlier key is never the first hit. */
  lemma ShadowedKey(table: seq<(string, string)>, text: string, early: nat, late: nat)
    requires early < late < |table| && Contains(table[late].0, table[early].0)
    ensures FirstHit(table, text) != Some(late)
  {
    if Contains(text, table[late].0) {
      ContainsTrans(text, table[late].0, table[early].0);
    }
  }
}
