/**
 * The UpdateData tool: `parse_query` turns an update request into
 * (field, identifier, value) in three stages that stop at the first failure,
 * and `updatedata` runs the UPDATE only for a complete parse and commits only
 * when a row was affected.
 *
 * The three `re.search` calls are written out as scanners over the stripped
 * query: each tries every start position from the left and, at a position,
 * the pattern's alternatives in order, with greedy repetition, exactly as
 * Python's backtracking engine does for these patterns (ASCII only, with
 * `re.IGNORECASE`).
 */
module UpdateData {
  import opened Wrappers
  import opened Text

  /** field_map in declaration order: natural-language term, DB column. */
  const FieldMap: seq<(string, string)> := [
    ("employee id", "employee_id"),
    ("id", "employee_id"),
    ("name", "name"),
    ("office", "office"),
    ("address", "address"),
    ("experience", "experience"),
    ("phone", "phone_number"),
    ("phone number", "phone_number"),
    ("skill", "skill_set"),
    ("skills", "skill_set")
  ]

  const FieldError: string := "Could not determine which field to update."
  const IdentifierError: string := "Could not determine employee identifier. Please specify an ID or name."
  const ValueError: string := "Could not determine the new value to set."

  /** `('employee_id', int(digits))` or `('name', words)`. */
  datatype Identifier = EmployeeId(id: nat) | Name(name: string) {
    /** `identifier[0]`: the column of the WHERE clause. */
    function Column(): string {
      if EmployeeId? then "employee_id" else "name"
    }
    /** `identifier[1]` as an f-string renders it (`str` of the int for an id). */
    function Shown(): string {
      if EmployeeId? then NatToString(id) else name
    }
  }

  /** The dict `parse_query` returns: each entry `None` until its stage sets it. */
  datatype Parsed = Parsed(field: Option<string>, identifier: Option<Identifier>,
                           value: Option<string>, error: Option<string>)

  // ---------------------------------------------------------------------
  // Field stage
  // ---------------------------------------------------------------------

  /** The first field_map term, in declared order, occurring in `query.lower()`. */
  function DetectField(query: string): (r: Option<string>)
    ensures r.None? <==> forall k :: 0 <= k < |FieldMap| ==> !Contains(Lower(query), FieldMap[k].0)
    ensures r.Some? ==> exists k: nat :: IsFirstHit(FieldMap, Lower(query), k) && r.value == FieldMap[k].1
  {
    match FirstHit(FieldMap, Lower(query))
    case None => None
    case Some(k) => Some(FieldMap[k].1)
  }

  /** The field is `employee_id` exactly when "id" occurs in the lower-cased query. */
  lemma FieldIsEmployeeIdIffIdCue(query: string)
    ensures DetectField(query) == Some("employee_id") <==> Contains(Lower(query), "id")
  {
    var lowered := Lower(query);
    assert OccursAt("employee id", "id", 9);
    if Contains(lowered, "id") {
      if Contains(lowered, "employee id") {
        FirstHitUnique(FieldMap, lowered, 0);
      } else {
        FirstHitUnique(FieldMap, lowered, 1);
      }
    }
    if DetectField(query) == Some("employee_id") {
      var k := FirstHit(FieldMap, lowered).value;
      assert k == 0 || k == 1;
      if k == 0 {
        ContainsTrans(lowered, "employee id", "id");
      }
    }
  }

  /** "phone number" and "skills" are never the first hit: "phone" and "skill" come first. */
  lemma ShadowedFieldTerms(query: string)
    ensures var hit := FirstHit(FieldMap, Lower(query)); hit != Some(7) && hit != Some(9)
  {
    var lowered := Lower(query);
    assert OccursAt(FieldMap[7].0, FieldMap[6].0, 0);
    ShadowedKey(FieldMap, lowered, 6, 7);
    assert OccursAt(FieldMap[9].0, FieldMap[8].0, 0);
    ShadowedKey(FieldMap, lowered, 8, 9);
  }

  // ---------------------------------------------------------------------
  // Identifier stage, part 1: (?:employee\s+id|id)\s*[=:]\s*(\d+)
  // ---------------------------------------------------------------------

  predicate IsSeparator(c: char) {
    c == '=' || c == ':'
  }

  /** `\s*[=:]\s*(\d+)` at `q`, yielding the digit run (see IdTailMatch). */
  function IdTail(s: string, q: nat): (r: Option<string>)
    requires q <= |s|
    ensures r.Some? ==> r.value != [] && AllDigits(r.value)
    ensures r.Some? ==> exists k :: q <= k < |s| && IsSeparator(s[k])
  {
    var a := q + Run(s, q, Space);
    if a < |s| && IsSeparator(s[a]) then
      var b := a + 1 + Run(s, a + 1, Space);
      var d := Run(s, b, Digit);
      if d >= 1 then
        assert q <= a < |s| && IsSeparator(s[a]);
        Some(s[b..b + d])
      else None
    else None
  }

  /** The tail matches exactly when the blanks from `q` end at a separator
      whose following blanks end at a digit, and it captures the whole digit
      run there. */
  lemma IdTailMatch(s: string, q: nat)
    requires q <= |s|
    ensures var a := q + Run(s, q, Space);
      IdTail(s, q).Some? <==>
        (a < |s| && IsSeparator(s[a]) && var b := a + 1 + Run(s, a + 1, Space); b < |s| && IsDigit(s[b]))
    ensures IdTail(s, q).Some? ==>
      var a := q + Run(s, q, Space);
      var b := a + 1 + Run(s, a + 1, Space);
      IdTail(s, q).value == s[b..b + Run(s, b, Digit)]
  {
  }

  /** The id pattern at start position `p`: first `employee\s+id`, then `id`;
      either way the capture is the tail `\s*[=:]\s*(\d+)` right after an
      "id" (see IdTailMatch for where that tail matches and what it takes). */
  function IdAt(s: string, p: nat): (r: Option<string>)
    requires p <= |s|
    ensures r.Some? ==> r.value != [] && AllDigits(r.value)
    ensures r.Some? ==> exists k :: p <= k < |s| && IsSeparator(s[k])
    ensures r.Some? ==> OccursAt(Lower(s), "id", p) || OccursAt(Lower(s), "employee", p)
    ensures r.Some? ==>
      (OccursAt(Lower(s), "id", p) && r == IdTail(s, p + 2)) ||
      (OccursAt(Lower(s), "employee", p) && IdAfterEmployee(s, p) && r == IdTail(s, p + 10 + Run(s, p + 8, Space)))
  {
    var viaEmployee := EmployeeIdAt(s, p);
    if viaEmployee.Some? then viaEmployee
    else if OccursAt(Lower(s), "id", p) then IdTail(s, p + 2)
    else None
  }

  /** `\s+id` right after an "employee" cue at `p`: a whitespace run, then "id" in any case. */
  predicate IdAfterEmployee(s: string, p: nat)
    requires p + 8 <= |s|
  {
    var w := Run(s, p + 8, Space);
    w >= 1 && OccursAt(Lower(s), "id", p + 8 + w)
  }

  /** The first alternative, `employee\s+id` and then the tail, at `p`: it
      matches only at "employee", blanks, "id", and then captures what the
      tail after that "id" captures. */
  function EmployeeIdAt(s: string, p: nat): (r: Option<string>)
    requires p <= |s|
    ensures r.Some? ==> r.value != [] && AllDigits(r.value)
    ensures r.Some? ==> exists k :: p <= k < |s| && IsSeparator(s[k])
    ensures r.Some? ==> OccursAt(Lower(s), "employee", p)
    ensures r.Some? ==> IdAfterEmployee(s, p) && r == IdTail(s, p + 10 + Run(s, p + 8, Space))
  {
    if OccursAt(Lower(s), "employee", p) && IdAfterEmployee(s, p) then
      IdTail(s, p + 10 + Run(s, p + 8, Space))
    else None
  }

  /** `re.search` of the id pattern: the digit capture at the leftmost matching start. */
  function IdSearch(s: string): (r: Option<string>)
    ensures r.Some? ==> r.value != [] && AllDigits(r.value)
    ensures r.Some? ==>
      exists p :: 0 <= p <= |s| && IdAt(s, p) == r && forall j :: 0 <= j < p ==> IdAt(s, j).None?
    ensures r.None? ==> forall p :: 0 <= p <= |s| ==> IdAt(s, p).None?
  {
    var at := (p: nat) => if p <= |s| then IdAt(s, p) else None;
    var r := Leftmost(at, 0, |s|);
    assert forall p :: 0 <= p <= |s| ==> at(p) == IdAt(s, p);
    r
  }

  /** Without a `=` or `:` the id pattern never matches: "employee id 123" is not an id. */
  lemma IdNeedsSeparator(s: string)
    requires forall k :: 0 <= k < |s| ==> !IsSeparator(s[k])
    ensures IdSearch(s).None?
  {
    var at := (p: nat) => if p <= |s| then IdAt(s, p) else None;
    forall i | 0 <= i <= |s|
      ensures at(i).None?
    {
    }
  }

  /** At an "id" cue (in any case) the id pattern is `\s*[=:]\s*(\d+)` after it. */
  lemma IdCueMatches(s: string, p: nat)
    requires OccursAt(Lower(s), "id", p)
    ensures IdAt(s, p) == IdTail(s, p + 2)
  {
    var lowered := Lower(s);
    assert lowered[p..p + 2][0] == 'i';
    assert "employee"[0] == 'e';
  }

  /** At an "employee" cue only the first alternative can match, since "id"
      cannot start where "employee" does. */
  lemma EmployeeCueMatches(s: string, p: nat)
    requires OccursAt(Lower(s), "employee", p)
    ensures IdAt(s, p) == EmployeeIdAt(s, p)
  {
    EmployeeIsNotId(Lower(s), p);
  }

  /** At an "employee" cue the id pattern is the tail after the "id" that
      follows the cue's blanks, and fails when no blank and "id" follow. */
  lemma EmployeeCue(s: string, p: nat)
    requires OccursAt(Lower(s), "employee", p)
    ensures IdAfterEmployee(s, p) ==> IdAt(s, p) == IdTail(s, p + 10 + Run(s, p + 8, Space))
    ensures !IdAfterEmployee(s, p) ==> IdAt(s, p).None?
  {
    EmployeeCueMatches(s, p);
    assert IdAt(s, p) == EmployeeIdAt(s, p);
  }

  /** "employee id = 42" gives employee "42". */
  lemma EmployeeCueExample()
    ensures IdAt("employee id = 42", 0) == Some("42")
  {
    EmployeeExampleCues();
    EmployeeCue("employee id = 42", 0);
    EmployeeExampleTail();
  }

  lemma EmployeeExampleCues()
    ensures OccursAt(Lower("employee id = 42"), "employee", 0)
    ensures IdAfterEmployee("employee id = 42", 0) && Run("employee id = 42", 8, Space) == 1
  {
    var s := "employee id = 42";
    assert Lower(s)[0..8] == "employee";
    RunIs(s, 8, Space, 1);
    assert Lower(s)[9..11] == "id";
  }

  lemma EmployeeExampleTail()
    ensures IdTail("employee id = 42", 11) == Some("42")
  {
    var s := "employee id = 42";
    EmployeeExampleRuns();
    assert IsSeparator(s[12]);
    assert s[14..16] == "42";
  }

  lemma EmployeeExampleRuns()
    ensures Run("employee id = 42", 11, Space) == 1
    ensures Run("employee id = 42", 13, Space) == 1
    ensures Run("employee id = 42", 14, Digit) == 2
  {
    var s := "employee id = 42";
    RunIs(s, 11, Space, 1);
    RunIs(s, 13, Space, 1);
    RunIs(s, 14, Digit, 2);
  }

  lemma EmployeeIsNotId(t: string, p: nat)
    requires OccursAt(t, "employee", p)
    ensures !OccursAt(t, "id", p)
  {
    assert t[p] == 'e' by {
      assert t[p..p + 8][0] == 'e';
    }
    assert "id"[0] == 'i';
  }

  /** "id=42" and "ID : 42" both give employee "42". */
  lemma IdCueExamples()
    ensures IdSearch("id=42") == Some("42")
    ensures IdSearch("ID : 42") == Some("42")
  {
    IdSearchEquals();
    IdSearchSpaced();
  }

  lemma IdSearchEquals()
    ensures IdSearch("id=42") == Some("42")
  {
    IdCueMatches("id=42", 0);
    IdTailEquals();
  }

  lemma IdSearchSpaced()
    ensures IdSearch("ID : 42") == Some("42")
  {
    IdCueMatches("ID : 42", 0);
    IdTailSpaced();
  }

  lemma IdTailEquals()
    ensures IdTail("id=42", 2) == Some("42")
  {
    IdTailMatch("id=42", 2);
    assert Run("id=42", 2, Space) == 0;
    assert Run("id=42", 3, Space) == 0;
    assert Run("id=42", 3, Digit) == 2;
    assert "id=42"[3..5] == "42";
  }

  lemma IdTailSpaced()
    ensures IdTail("ID : 42", 2) == Some("42")
  {
    IdTailMatch("ID : 42", 2);
    assert Run("ID : 42", 2, Space) == 1;
    assert Run("ID : 42", 4, Space) == 1;
    assert Run("ID : 42", 5, Digit) == 2;
    assert "ID : 42"[5..7] == "42";
  }

  /** The separator must come right after the blanks: in "id 123 phone: 9" the
      cue is followed by a digit, so the tail fails there. */
  lemma IdTailNeedsAdjacentSeparator()
    ensures IdTail("id 123 phone: 9", 2).None?
  {
    assert Run("id 123 phone: 9", 2, Space) == 1;
    assert !IsSeparator("id 123 phone: 9"[3]);
  }

  // ---------------------------------------------------------------------
  // Identifier stage, part 2: (?:name|for)\s+([A-Z][a-z]+(?:\s+[A-Z][a-z]+)*)
  // ---------------------------------------------------------------------

  /** Text of ASCII letters and whitespace that starts and ends with a letter. */
  predicate IsNameText(t: string) {
    |t| >= 2 && IsLetter(t[0]) && IsLetter(t[|t| - 1])
    && forall k :: 0 <= k < |t| ==> IsLetter(t[k]) || IsSpace(t[k])
  }

  /** `\s+[A-Z][a-z]+` matches at `e`: under IGNORECASE, a whitespace run and
      then a run of two or more letters of either case. */
  predicate WordFollows(s: string, e: nat)
    requires e <= |s|
  {
    var w := Run(s, e, Space);
    w >= 1 && Run(s, e + w, Letter) >= 2
  }

  /** Where one repetition of `\s+[A-Z][a-z]+` from `e` ends: after the whole
      whitespace run and the whole letter run that follows it; `e` itself when
      no such word follows. */
  function NextWord(s: string, e: nat): (m: nat)
    requires e <= |s|
    ensures e <= m <= |s|
    ensures WordFollows(s, e) ==> m == e + Run(s, e, Space) + Run(s, e + Run(s, e, Space), Letter)
    ensures WordFollows(s, e) <==> m > e
  {
    if WordFollows(s, e) then
      var w := Run(s, e, Space);
      e + w + Run(s, e + w, Letter)
    else e
  }

  /** `s[e..r]` is whole repetitions of `\s+[A-Z][a-z]+`, each taking a whole
      whitespace run and then a whole run of two or more letters. */
  predicate RepeatsWord(s: string, e: nat, r: nat)
    requires e <= r <= |s|
    decreases r - e
  {
    e == r || (WordFollows(s, e) && NextWord(s, e) <= r && RepeatsWord(s, NextWord(s, e), r))
  }

  /** `(?:\s+[A-Z][a-z]+)*` from `e`, each repetition taking the whole letter
      run; the loop stops at the first repetition that fails. */
  function ExtendName(s: string, e: nat): (r: nat)
    requires e <= |s|
    decreases |s| - e
    ensures e <= r <= |s|
    ensures forall k :: e <= k < r ==> IsLetter(s[k]) || IsSpace(s[k])
    ensures r > e ==> IsLetter(s[r - 1])
    ensures !WordFollows(s, r)
  {
    var m := NextWord(s, e);
    if m > e then
      assert WordFollows(s, e) && m <= |s|;
      var r := ExtendName(s, m);
      WordLetters(s, e, m, r);
      r
    else e
  }

  /** One repetition from `e` to `m`, then what the rest of the loop took from
      `m` to `r`, is letters and whitespace ending in a letter. */
  lemma {:induction false} WordLetters(s: string, e: nat, m: nat, r: nat)
    requires e <= |s| && WordFollows(s, e) && m == NextWord(s, e) <= r <= |s|
    requires forall k :: m <= k < r ==> IsLetter(s[k]) || IsSpace(s[k])
    requires r > m ==> IsLetter(s[r - 1])
    ensures forall k :: e <= k < r ==> IsLetter(s[k]) || IsSpace(s[k])
    ensures IsLetter(s[r - 1])
  {
    var w := Run(s, e, Space);
    forall k | e <= k < r
      ensures IsLetter(s[k]) || IsSpace(s[k])
    {
      if k < e + w {
        assert InClass(s[k], Space);
      } else if k < m {
        assert InClass(s[k], Letter);
      }
    }
    if r == m {
      assert InClass(s[m - 1], Letter);
    }
  }

  lemma {:induction false} ExtendNameStep(s: string, e: nat)
    requires e <= |s| && WordFollows(s, e)
    ensures ExtendName(s, e) == ExtendName(s, NextWord(s, e))
  {
  }

  lemma {:induction false} ExtendNameStop(s: string, e: nat)
    requires e <= |s| && !WordFollows(s, e)
    ensures ExtendName(s, e) == e
  {
  }

  /** What ExtendName passes over is whole repetitions of `\s+[A-Z][a-z]+`. */
  lemma {:induction false} ExtendNameTakesWholeWords(s: string, e: nat)
    requires e <= |s|
    decreases |s| - e
    ensures RepeatsWord(s, e, ExtendName(s, e))
  {
    if WordFollows(s, e) {
      ExtendNameStep(s, e);
      ExtendNameTakesWholeWords(s, NextWord(s, e));
    } else {
      ExtendNameStop(s, e);
    }
  }

  /** ExtendName never stops inside a run of letters. */
  lemma {:induction false} ExtendNameEndsWord(s: string, e: nat)
    requires e <= |s|
    decreases |s| - e
    ensures ExtendName(s, e) > e ==> ExtendName(s, e) == |s| || !IsLetter(s[ExtendName(s, e)])
  {
    if WordFollows(s, e) {
      var m := NextWord(s, e);
      ExtendNameStep(s, e);
      ExtendNameEndsWord(s, m);
      if ExtendName(s, m) == m {
        var w := Run(s, e, Space);
        assert m == |s| || !InClass(s[e + w + Run(s, e + w, Letter)], Letter);
      }
    } else {
      ExtendNameStop(s, e);
    }
  }

  /** `\s+([A-Z][a-z]+(?:\s+[A-Z][a-z]+)*)` at `q`, yielding the capture. */
  function NameTail(s: string, q: nat): (r: Option<string>)
    requires q <= |s|
    ensures r.Some? <==> WordFollows(s, q)
    ensures r.Some? ==> IsNameText(r.value)
  {
    if WordFollows(s, q) then
      var start := q + Run(s, q, Space);
      var e := ExtendName(s, NextWord(s, q));
      NameSlice(s, start, NextWord(s, q) - start, e);
      Some(s[start..e])
    else None
  }

  lemma NameSlice(s: string, start: nat, n: nat, e: nat)
    requires 2 <= n && start + n <= e <= |s|
    requires forall k :: start <= k < start + n ==> IsLetter(s[k])
    requires forall k :: start + n <= k < e ==> IsLetter(s[k]) || IsSpace(s[k])
    requires e > start + n ==> IsLetter(s[e - 1])
    ensures IsNameText(s[start..e])
  {
    var t := s[start..e];
    forall k | 0 <= k < |t| ensures IsLetter(t[k]) || IsSpace(t[k]) {
      assert t[k] == s[start + k];
    }
    assert t[0] == s[start];
    assert t[|t| - 1] == s[e - 1];
  }

  /** The name pattern at start position `p`: first `name`, then `for`. */
  function NameAt(s: string, p: nat): (r: Option<string>)
    requires p <= |s|
    ensures r.Some? ==> IsNameText(r.value)
    ensures r.Some? ==>
      (OccursAt(Lower(s), "name", p) && r == NameTail(s, p + 4)) ||
      (OccursAt(Lower(s), "for", p) && r == NameTail(s, p + 3))
  {
    var lowered := Lower(s);
    var viaName := if OccursAt(lowered, "name", p) then NameTail(s, p + 4) else None;
    if viaName.Some? then viaName
    else if OccursAt(lowered, "for", p) then NameTail(s, p + 3)
    else None
  }

  /** At a "name" cue the pattern is the tail after it; at "for" (where
      "name" cannot start) the tail after "for"; with neither cue it fails. */
  lemma NameCue(s: string, p: nat)
    requires p <= |s|
    ensures OccursAt(Lower(s), "name", p) ==> NameAt(s, p) == NameTail(s, p + 4)
    ensures OccursAt(Lower(s), "for", p) ==> NameAt(s, p) == NameTail(s, p + 3)
    ensures !OccursAt(Lower(s), "name", p) && !OccursAt(Lower(s), "for", p) ==> NameAt(s, p).None?
  {
    if OccursAt(Lower(s), "for", p) {
      assert Lower(s)[p] == 'f' by {
        assert Lower(s)[p..p + 3][0] == 'f';
      }
      assert "name"[0] == 'n';
    }
  }

  /** `re.search` of the name pattern: the capture at the leftmost matching start. */
  function NameSearch(s: string): (r: Option<string>)
    ensures r.Some? ==> IsNameText(r.value)
    ensures r.Some? ==>
      exists p :: 0 <= p <= |s| && NameAt(s, p) == r && forall j :: 0 <= j < p ==> NameAt(s, j).None?
    ensures r.None? ==> forall p :: 0 <= p <= |s| ==> NameAt(s, p).None?
  {
    var at := (p: nat) => if p <= |s| then NameAt(s, p) else None;
    var r := Leftmost(at, 0, |s|);
    assert forall p :: 0 <= p <= |s| ==> at(p) == NameAt(s, p);
    r
  }

  /** Without an "n" or an "f" in any case, neither "name" nor "for" occurs and
      the name pattern never matches. */
  lemma NameNeedsCue(s: string)
    requires forall k :: 0 <= k < |s| ==> s[k] != 'n' && s[k] != 'N' && s[k] != 'f' && s[k] != 'F'
    ensures NameSearch(s).None?
  {
    var at := (p: nat) => if p <= |s| then NameAt(s, p) else None;
    forall p | 0 <= p <= |s|
      ensures at(p).None?
    {
      NoCueAt(s, p, "name");
      NoCueAt(s, p, "for");
    }
  }

  lemma NoCueAt(s: string, p: nat, cue: string)
    requires cue != [] && (cue[0] == 'n' || cue[0] == 'f')
    requires forall k :: 0 <= k < |s| ==> s[k] != 'n' && s[k] != 'N' && s[k] != 'f' && s[k] != 'F'
    ensures !OccursAt(Lower(s), cue, p)
  {
    if p + |cue| <= |s| {
      assert Lower(s)[p..p + |cue|][0] == LowerChar(s[p]);
      assert LowerChar(s[p]) != cue[0];
    }
  }

  /** The name capture starts after the blanks with a whole run of two or
      more letters, goes on with whole words of two or more letters, whatever
      their case, and stops only where no such word follows. */
  lemma NameCaptureIsGreedy(s: string, q: nat)
    requires q <= |s| && NameTail(s, q).Some?
    ensures var start := q + Run(s, q, Space);
            var first := NextWord(s, q);
            var e := ExtendName(s, first);
            && first == start + Run(s, start, Letter) && Run(s, start, Letter) >= 2
            && NameTail(s, q) == Some(s[start..e])
            && RepeatsWord(s, first, e)
            && (e == |s| || !IsLetter(s[e]))
            && !WordFollows(s, e)
  {
    var first := NextWord(s, q);
    NameTailSlice(s, q);
    ExtendNameTakesWholeWords(s, first);
    NameEndsWord(s, q);
  }

  /** The capture ends where no letter follows, even when no word was added
      after the first. */
  lemma NameEndsWord(s: string, q: nat)
    requires q <= |s| && WordFollows(s, q)
    ensures var e := ExtendName(s, NextWord(s, q)); e == |s| || !IsLetter(s[e])
  {
    var first := NextWord(s, q);
    ExtendNameEndsWord(s, first);
    if ExtendName(s, first) == first {
      var start := q + Run(s, q, Space);
      assert first == |s| || !InClass(s[start + Run(s, start, Letter)], Letter);
    }
  }

  lemma NameTailSlice(s: string, q: nat)
    requires q <= |s| && WordFollows(s, q)
    ensures NameTail(s, q) == Some(s[q + Run(s, q, Space)..ExtendName(s, NextWord(s, q))])
  {
    var start := q + Run(s, q, Space);
    var e := ExtendName(s, NextWord(s, q));
    assert start <= NextWord(s, q) <= e <= |s|;
  }

  /** After "for", "John Doe to New York" is captured whole: "to" is a word of
      two letters like the others. */
  lemma NameCaptureExample()
    ensures NameTail("for John Doe to New York", 3) == Some("John Doe to New York")
  {
    var s := "for John Doe to New York";
    RunIs(s, 3, Space, 1);
    RunIs(s, 4, Letter, 4);
    assert NextWord(s, 3) == 8;
    NameTailSlice(s, 3);
    ExtendFromDoe();
    NameCaptureSlice();
  }

  /** The whole search on "for John Doe to New York": the cue at the start
      matches, so the capture is "John Doe to New York". */
  lemma NameSearchExample()
    ensures NameSearch("for John Doe to New York") == Some("John Doe to New York")
  {
    NameExampleAtStart();
    NameCaptureExample();
  }

  lemma NameExampleAtStart()
    ensures NameAt("for John Doe to New York", 0) == NameTail("for John Doe to New York", 3)
  {
    var s := "for John Doe to New York";
    assert Lower(s)[0..3] == "for";
    NameCue(s, 0);
  }

  lemma NameCaptureSlice()
    ensures "for John Doe to New York"[4..24] == "John Doe to New York"
  {
  }

  lemma ExtendFromDoe()
    ensures ExtendName("for John Doe to New York", 8) == 24
  {
    var s := "for John Doe to New York";
    RunIs(s, 8, Space, 1);
    RunIs(s, 9, Letter, 3);
    assert NextWord(s, 8) == 12;
    ExtendNameStep(s, 8);
    ExtendFromTo();
  }

  lemma ExtendFromTo()
    ensures ExtendName("for John Doe to New York", 12) == 24
  {
    var s := "for John Doe to New York";
    RunIs(s, 12, Space, 1);
    RunIs(s, 13, Letter, 2);
    assert NextWord(s, 12) == 15;
    ExtendNameStep(s, 12);
    ExtendFromNew();
  }

  lemma ExtendFromNew()
    ensures ExtendName("for John Doe to New York", 15) == 24
  {
    var s := "for John Doe to New York";
    RunIs(s, 15, Space, 1);
    RunIs(s, 16, Letter, 3);
    assert NextWord(s, 15) == 19;
    ExtendNameStep(s, 15);
    ExtendFromYork();
  }

  lemma ExtendFromYork()
    ensures ExtendName("for John Doe to New York", 19) == 24
  {
    var s := "for John Doe to New York";
    RunIs(s, 19, Space, 1);
    RunIs(s, 20, Letter, 4);
    assert NextWord(s, 19) == 24;
    ExtendNameStep(s, 19);
    RunIs(s, 24, Space, 0);
    ExtendNameStop(s, 24);
  }

  /** After a cue, a lower-case word is accepted like a capitalised one. */
  lemma NameIgnoresCase(s: string, q: nat)
    requires q < |s| && IsSpace(s[q]) && q + 3 <= |s| && 'a' <= s[q + 1] <= 'z' && 'a' <= s[q + 2] <= 'z'
    ensures NameTail(s, q).Some?
    ensures NameTail(s, q).value[0] == s[q + 1]
  {
    assert Run(s, q + 1, Space) == 0;
    assert Run(s, q, Space) == 1;
    assert Run(s, q + 2, Letter) >= 1;
  }

  /** The identifier the query names: the id pattern, else the name pattern. */
  function IdentifierOf(query: string): (r: Option<Identifier>)
    ensures IdSearch(query).Some? ==> r == Some(EmployeeId(DigitsValue(IdSearch(query).value)))
    ensures IdSearch(query).None? ==> (r.Some? <==> NameSearch(query).Some?)
    ensures r.Some? && r.value.Name? ==>
      IdSearch(query).None? && r.value.name == NameSearch(query).value && IsNameText(r.value.name)
  {
    match IdSearch(query)
    case Some(digits) => Some(EmployeeId(DigitsValue(digits)))
    case None =>
      match NameSearch(query)
      case Some(name) => Some(Name(name))
      case None => None
  }

  /** `int()` drops leading zeros, so "id=007" is reported as employee 7. */
  lemma LeadingZerosDropped()
    ensures EmployeeId(DigitsValue("007")).Shown() == "7"
  {
    assert "007"[..2] == "00";
    assert "00"[..1] == "0";
    assert "0"[..0] == [];
  }

  // ---------------------------------------------------------------------
  // Value stage: (?:to|as|with)\s+([^.,;!?]+)(?:$|[.,;!?])
  // ---------------------------------------------------------------------

  /** `\s+([^.,;!?]+)(?:$|[.,;!?])` with `\s+` holding `k` of the whitespace run
      at `q`, giving it back one character at a time when the rest fails. */
  function ValueWithSpaces(s: string, q: nat, k: nat): (r: Option<string>)
    requires q + k <= |s|
    decreases k
    ensures r.Some? ==> r.value != [] && forall i :: 0 <= i < |r.value| ==> !IsPunct(r.value[i])
  {
    if k == 0 then None
    else
      var g := q + k;
      var n := Run(s, g, NotPunct);
      if n >= 1 && (g + n == |s| || IsPunct(s[g + n])) then Some(s[g..g + n])
      else ValueWithSpaces(s, q, k - 1)
  }

  /** `\s+([^.,;!?]+)(?:$|[.,;!?])` at `q`: the greedy `\s+` first takes the whole whitespace run. */
  function ValueTail(s: string, q: nat): (r: Option<string>)
    requires q <= |s|
    ensures r.Some? ==> r.value != [] && forall i :: 0 <= i < |r.value| ==> !IsPunct(r.value[i])
  {
    ValueWithSpaces(s, q, Run(s, q, Space))
  }

  /** The value pattern at start position `p`: `to`, then `as`, then `with`. */
  function ValueAt(s: string, p: nat): (r: Option<string>)
    requires p <= |s|
    ensures r.Some? ==> r.value != [] && forall i :: 0 <= i < |r.value| ==> !IsPunct(r.value[i])
    ensures r.Some? ==>
      ((OccursAt(Lower(s), "to", p) || OccursAt(Lower(s), "as", p)) && r == ValueTail(s, p + 2)) ||
      (OccursAt(Lower(s), "with", p) && r == ValueTail(s, p + 4))
  {
    var lowered := Lower(s);
    var viaTo := if OccursAt(lowered, "to", p) then ValueTail(s, p + 2) else None;
    if viaTo.Some? then viaTo
    else
      var viaAs := if OccursAt(lowered, "as", p) then ValueTail(s, p + 2) else None;
      if viaAs.Some? then viaAs
      else if OccursAt(lowered, "with", p) then ValueTail(s, p + 4)
      else None
  }

  /** At a "to" or "as" cue the pattern is the tail after those two letters;
      at "with" (where neither can start) the tail after it; with no cue it fails. */
  lemma ValueCue(s: string, p: nat)
    requires p <= |s|
    ensures OccursAt(Lower(s), "to", p) || OccursAt(Lower(s), "as", p) ==> ValueAt(s, p) == ValueTail(s, p + 2)
    ensures OccursAt(Lower(s), "with", p) ==> ValueAt(s, p) == ValueTail(s, p + 4)
    ensures !OccursAt(Lower(s), "to", p) && !OccursAt(Lower(s), "as", p) && !OccursAt(Lower(s), "with", p) ==>
      ValueAt(s, p).None?
  {
    if OccursAt(Lower(s), "to", p) {
      assert Lower(s)[p] == 't' by {
        assert Lower(s)[p..p + 2][0] == 't';
      }
      assert "as"[0] == 'a';
    }
    if OccursAt(Lower(s), "with", p) {
      assert Lower(s)[p] == 'w' by {
        assert Lower(s)[p..p + 4][0] == 'w';
      }
      assert "to"[0] == 't' && "as"[0] == 'a';
    }
  }

  /** `re.search` of the value pattern: the capture at the leftmost matching start. */
  function ValueSearch(s: string): (r: Option<string>)
    ensures r.Some? ==> r.value != [] && forall i :: 0 <= i < |r.value| ==> !IsPunct(r.value[i])
    ensures r.Some? ==>
      exists p :: 0 <= p <= |s| && ValueAt(s, p) == r && forall j :: 0 <= j < p ==> ValueAt(s, j).None?
    ensures r.None? ==> forall p :: 0 <= p <= |s| ==> ValueAt(s, p).None?
  {
    var at := (p: nat) => if p <= |s| then ValueAt(s, p) else None;
    var r := Leftmost(at, 0, |s|);
    assert forall p :: 0 <= p <= |s| ==> at(p) == ValueAt(s, p);
    r
  }

  /** `value_match.group(1).strip()`, if the value pattern matches. */
  function ValueOf(query: string): (r: Option<string>)
    ensures r.None? <==> ValueSearch(query).None?
    ensures r.Some? ==> r.value == Strip(ValueSearch(query).value)
    ensures r.Some? ==> forall i :: 0 <= i < |r.value| ==> !IsPunct(r.value[i])
  {
    match ValueSearch(query)
    case None => None
    case Some(g) =>
      StripKeepsNoPunct(g);
      Some(Strip(g))
  }

  lemma StripKeepsNoPunct(g: string)
    requires forall i :: 0 <= i < |g| ==> !IsPunct(g[i])
    ensures forall i :: 0 <= i < |Strip(g)| ==> !IsPunct(Strip(g)[i])
  {
    var a, b :| 0 <= a <= b <= |g| && Strip(g) == g[a..b] && StripCut(g, a, b);
    forall i | 0 <= i < |Strip(g)| ensures !IsPunct(Strip(g)[i]) {
      assert Strip(g)[i] == g[a + i];
    }
  }

  /** After a cue and its whitespace, the capture runs from the first
      non-blank character to the next punctuation mark or the end:
      "to set phone number to 555-1234" gives "set phone number to 555-1234". */
  lemma ValueRunsToPunct(s: string, q: nat)
    requires q <= |s|
    requires var w := Run(s, q, Space); w >= 1 && q + w < |s| && !IsPunct(s[q + w])
    ensures var g := q + Run(s, q, Space);
            ValueTail(s, q) == Some(s[g..g + Run(s, g, NotPunct)])
  {
  }

  /** The empty-value case: a cue followed by two or more blanks and then
      punctuation. `\s+` gives one blank back, the capture is that blank, and
      it strips to the empty string. */
  lemma ValueBlankCapture(s: string, q: nat)
    requires q <= |s|
    requires var w := Run(s, q, Space); w >= 2 && (q + w == |s| || IsPunct(s[q + w]))
    ensures var w := Run(s, q, Space);
            ValueTail(s, q) == Some([s[q + w - 1]]) && Strip([s[q + w - 1]]) == []
  {
    var w := Run(s, q, Space);
    ValueGivesBack(s, q, w);
    ValueOfLastBlank(s, q, w - 1);
    StripOfBlank(s[q + w - 1]);
  }

  /** Nothing to capture right after `\s+` holding `k` blanks: one is given back. */
  lemma ValueGivesBack(s: string, q: nat, k: nat)
    requires 1 <= k && q + k <= |s| && (q + k == |s| || IsPunct(s[q + k]))
    ensures ValueWithSpaces(s, q, k) == ValueWithSpaces(s, q, k - 1)
  {
    RunIs(s, q + k, NotPunct, 0);
  }

  /** A blank given back, followed by the end or punctuation, is the capture. */
  lemma ValueOfLastBlank(s: string, q: nat, k: nat)
    requires 1 <= k && q + k < |s| && IsSpace(s[q + k])
    requires q + k + 1 == |s| || IsPunct(s[q + k + 1])
    ensures ValueWithSpaces(s, q, k) == Some([s[q + k]])
  {
    RunIs(s, q + k, NotPunct, 1);
    assert s[q + k..q + k + 1] == [s[q + k]];
  }

  /** The value tail fails exactly when no whitespace follows the cue, or a
      single blank is followed by the end or punctuation. */
  lemma ValueTailFails(s: string, q: nat)
    requires q <= |s|
    ensures var w := Run(s, q, Space);
      ValueTail(s, q).None? <==> (w == 0 || (w == 1 && (q + 1 == |s| || IsPunct(s[q + 1]))))
  {
    var w := Run(s, q, Space);
    if w >= 1 && q + w < |s| && !IsPunct(s[q + w]) {
      ValueRunsToPunct(s, q);
    } else if w >= 2 {
      ValueBlankCapture(s, q);
    } else if w == 1 {
      ValueGivesBack(s, q, 1);
    }
  }

  // ---------------------------------------------------------------------
  // parse_query
  // ---------------------------------------------------------------------

  /** The staged parse, as one value: field, then identifier, then value. */
  function Parse(query: string): (r: Parsed)
    ensures var q := Strip(query);
      && (r.error == Some(FieldError) <==> DetectField(q).None?)
      && (r.error == Some(IdentifierError) <==> DetectField(q).Some? && IdentifierOf(q).None?)
      && (r.error == Some(ValueError) <==>
            (DetectField(q).Some? && IdentifierOf(q).Some? && (ValueOf(q).None? || ValueOf(q).value == [])))
    ensures r.error.None? ==>
      r.field.Some? && r.identifier.Some? && r.value.Some? && r.value.value != []
  {
    ErrorsDistinct();
    var q := Strip(query);
    match DetectField(q)
    case None => Parsed(None, None, None, Some(FieldError))
    case Some(field) =>
      match IdentifierOf(q)
      case None => Parsed(Some(field), None, None, Some(IdentifierError))
      case Some(id) =>
        var value := ValueOf(q);
        var missing := value.None? || value.value == [];
        Parsed(Some(field), Some(id), value, if missing then Some(ValueError) else None)
  }

  /** "Update Sujoy address to Kolkata" names a field but no identifier: the
      capitalised "Sujoy" follows no "name" or "for" cue, and there is no id. */
  lemma SujoyAddressNeedsCue()
    ensures Parse("Update Sujoy address to Kolkata").error == Some(IdentifierError)
  {
    var q := "Update Sujoy address to Kolkata";
    SujoyIsStripped();
    SujoyHasField();
    SujoyNoIdentifier();
  }

  lemma SujoyIsStripped()
    ensures Strip("Update Sujoy address to Kolkata") == "Update Sujoy address to Kolkata"
  {
    StripStripped("Update Sujoy address to Kolkata");
  }

  lemma SujoyNoIdentifier()
    ensures IdentifierOf("Update Sujoy address to Kolkata").None?
  {
    SujoyNoId();
    SujoyNoName();
  }

  lemma SujoyNoId()
    ensures IdSearch("Update Sujoy address to Kolkata").None?
  {
    IdNeedsSeparator("Update Sujoy address to Kolkata");
  }

  lemma SujoyNoName()
    ensures NameSearch("Update Sujoy address to Kolkata").None?
  {
    NameNeedsCue("Update Sujoy address to Kolkata");
  }

  lemma SujoyHasField()
    ensures DetectField("Update Sujoy address to Kolkata").Some?
  {
    var q := "Update Sujoy address to Kolkata";
    LowerSlice(q, 13, 20);
    assert q[13..20] == "address";
    LowerAddress();
    assert OccursAt(Lower(q), FieldMap[4].0, 13);
  }

  lemma LowerAddress()
    ensures Lower("address") == "address"
  {
  }

  lemma ErrorsDistinct()
    ensures FieldError != IdentifierError && FieldError != ValueError && IdentifierError != ValueError
  {
    assert |FieldError| == 42 && |IdentifierError| == 70 && |ValueError| == 41;
  }

  /** `parse_query`: the `result` dict filled in place across the staged early returns. */
  method ParseQuery(query: string) returns (result: Parsed)
    ensures result == Parse(query)
    ensures var q := Strip(query);
      && result.field == DetectField(q)
      && (result.field.None? ==> result == Parsed(None, None, None, Some(FieldError)))
      && (result.field.Some? && IdentifierOf(q).None? ==>
            result.identifier.None? && result.value.None? && result.error == Some(IdentifierError))
      && (result.field.Some? && IdentifierOf(q).Some? ==>
            result.identifier == IdentifierOf(q) && result.value == ValueOf(q)
            && (result.error.None? <==> (result.value.Some? && result.value.value != []))
            && (result.error.Some? ==> result.error == Some(ValueError)))
  {
    var q := Strip(query);
    result := Parsed(None, None, None, None);
    var lowered := Lower(q);
    var i := 0;
    while i < |FieldMap|
      invariant 0 <= i <= |FieldMap|
      invariant forall j :: 0 <= j < i ==> !Contains(lowered, FieldMap[j].0)
      invariant result == Parsed(None, None, None, None)
      decreases |FieldMap| - i
    {
      if Contains(lowered, FieldMap[i].0) {
        FirstHitUnique(FieldMap, lowered, i);
        result := result.(field := Some(FieldMap[i].1));
        break;
      }
      i := i + 1;
    }
    if result.field.None? {
      result := result.(error := Some(FieldError));
      return;
    }
    var idMatch := IdSearch(q);
    if idMatch.Some? {
      result := result.(identifier := Some(EmployeeId(DigitsValue(idMatch.value))));
    } else {
      var nameMatch := NameSearch(q);
      if nameMatch.Some? {
        result := result.(identifier := Some(Name(nameMatch.value)));
      }
    }
    if result.identifier.None? {
      result := result.(error := Some(IdentifierError));
      return;
    }
    var valueMatch := ValueSearch(q);
    if valueMatch.Some? {
      result := result.(value := Some(Strip(valueMatch.value)));
    }
    if result.value.None? || result.value.value == [] {
      result := result.(error := Some(ValueError));
    }
  }

  // ---------------------------------------------------------------------
  // updatedata
  // ---------------------------------------------------------------------

  /** `UPDATE employees SET field = %s WHERE identifier[0] = %s` with (value, identifier[1]). */
  datatype Update = Update(field: string, value: string, identifier: Identifier)

  /** What the database collaborator reports: the connection failed, the
      statement raised `pymysql.Error`, or it ran with `cursor.rowcount` rows. */
  datatype DbOutcome = ConnectError(message: string) | ExecError(message: string) | Affected(rowcount: nat)

  /** The statement a complete parse describes. */
  function StatementOf(p: Parsed): Update
    requires p.field.Some? && p.identifier.Some? && p.value.Some?
  {
    Update(p.field.value, p.value.value, p.identifier.value)
  }

  /** The text `updatedata` returns once the statement has been handed to the database. */
  function UpdateReply(stmt: Update, outcome: DbOutcome): (out: string)
    ensures out != [] && (out[0] == '✅' <==> outcome.Affected? && outcome.rowcount > 0)
    ensures outcome.ConnectError? ==>
      StartsWith(out, ConnectErrorPrefix) && out[|ConnectErrorPrefix|..] == outcome.message
    ensures outcome.ExecError? ==>
      StartsWith(out, ExecErrorPrefix) && out[|ExecErrorPrefix|..] == outcome.message
    ensures outcome == Affected(0) ==>
      var p := NoMatchPrefix + stmt.identifier.Column() + " = ";
      StartsWith(out, p) && out[|p|..] == stmt.identifier.Shown()
    ensures outcome.Affected? && outcome.rowcount > 0 ==>
      var p := UpdatedPrefix + stmt.field + " for employee ";
      StartsWith(out, p) && out[|p|..] == stmt.identifier.Shown()
  {
    match outcome
    case ConnectError(e) => Glued(ConnectErrorPrefix, e); ConnectErrorPrefix + e
    case ExecError(e) => Glued(ExecErrorPrefix, e); ExecErrorPrefix + e
    case Affected(n) =>
      if n == 0 then
        var p := NoMatchPrefix + stmt.identifier.Column() + " = ";
        Glued(p, stmt.identifier.Shown());
        p + stmt.identifier.Shown()
      else
        var p := UpdatedPrefix + stmt.field + " for employee ";
        Glued(p, stmt.identifier.Shown());
        p + stmt.identifier.Shown()
  }

  const ConnectErrorPrefix: string := "❌ Error: "
  const ExecErrorPrefix: string := "❌ Database error: "
  const NoMatchPrefix: string := "⚠️ No matching employee found with "
  const UpdatedPrefix: string := "✅ Successfully updated "

  /** `updatedata(query)`: a parse error is returned without touching the
      database; otherwise the UPDATE is issued and committed exactly when it
      affected at least one row. */
  method UpdateEmployee(query: string, db: Update -> DbOutcome) returns (out: string, issued: Option<Update>, committed: bool)
    ensures Parse(query).error.Some? ==>
      out == "❌ " + Parse(query).error.value && issued.None? && !committed
    ensures Parse(query).error.None? ==>
      var p := Parse(query);
      && p.field.Some? && p.identifier.Some? && p.value.Some?
      && issued == Some(StatementOf(p))
      && out == UpdateReply(StatementOf(p), db(StatementOf(p)))
      && (committed <==> db(StatementOf(p)).Affected? && db(StatementOf(p)).rowcount > 0)
  {
    var parsed := ParseQuery(query);
    issued, committed := None, false;
    if parsed.error.Some? {
      out := "❌ " + parsed.error.value;
      return;
    }
    var stmt := Update(parsed.field.value, parsed.value.value, parsed.identifier.value);
    issued := Some(stmt);
    var outcome := db(stmt);
    out := UpdateReply(stmt, outcome);
    committed := outcome.Affected? && outcome.rowcount > 0;
  }

  /** A complete parse always has a non-empty value free of punctuation. */
  lemma CompleteParseValue(query: string)
    requires Parse(query).error.None?
    ensures var p := Parse(query);
      p.value.Some? && p.value.value != [] && forall i :: 0 <= i < |p.value.value| ==> !IsPunct(p.value.value[i])
  {
  }
}
