/**
 * The FetchData tool: read one column of one employee row, chosen by
 * natural-language cues in the query.
 *
 * The column is the value of the first COLUMN_MAP key, in declared order,
 * that is a substring of the lower-cased query. The identifier is
 * `employee_id` whenever "id" occurs, with every digit of the query as its
 * value; otherwise it is `name`, with the first whitespace token that begins
 * with an upper-case letter. The database is the parameter `db`, consulted
 * only when both stages succeed.
 */
module FetchData {
  import opened Wrappers
  import opened Text

  /** COLUMN_MAP in declaration order: natural-language key, DB column. */
  const ColumnMap: seq<(string, string)> := [
    ("id", "employee_id"),
    ("employee id", "employee_id"),
    ("name", "name"),
    ("office", "office"),
    ("address", "address"),
    ("experience", "experience"),
    ("phone", "phone_number"),
    ("phone number", "phone_number"),
    ("ph no", "phone_number"),
    ("skill", "skill_set"),
    ("skills", "skill_set"),
    ("skill set", "skill_set")
  ]

  const FieldError: string := "❌ Could not determine which field to fetch."
  const IdentifierError: string := "❌ Could not determine employee identifier."

  /** The WHERE side of the lookup: identifier column and its value. */
  datatype Identifier = Identifier(column: string, value: string)

  /** `SELECT column FROM employees WHERE identifier = %s` with parameter `value`. */
  datatype Select = Select(column: string, identifier: string, value: string)

  /** What `cursor.fetchone()` yields, or the error raised on the way. */
  datatype Lookup = Row(first: string) | NoRow | DbError(message: string)

  /** The outcome of the two parsing stages. */
  datatype Parse = FieldNotFound | IdentifierNotFound | Command(stmt: Select)

  // ---------------------------------------------------------------------
  // Column stage
  // ---------------------------------------------------------------------

  /** The column the query asks for: that of the first COLUMN_MAP key occurring in `query.lower()`. */
  function DetectColumn(query: string): (r: Option<string>)
    ensures r.None? <==> forall k :: 0 <= k < |ColumnMap| ==> !Contains(Lower(query), ColumnMap[k].0)
    ensures r.Some? ==> exists k: nat :: IsFirstHit(ColumnMap, Lower(query), k) && r.value == ColumnMap[k].1
  {
    match FirstHit(ColumnMap, Lower(query))
    case None => None
    case Some(k) => Some(ColumnMap[k].1)
  }

  /** The `for key, col in COLUMN_MAP.items()` loop with its `break`. */
  method ResolveColumn(query: string) returns (column: Option<string>)
    ensures column == DetectColumn(query)
  {
    var lowered := Lower(query);
    column := None;
    var i := 0;
    while i < |ColumnMap|
      invariant 0 <= i <= |ColumnMap|
      invariant forall j :: 0 <= j < i ==> !Contains(lowered, ColumnMap[j].0)
      invariant column.None?
    {
      if Contains(lowered, ColumnMap[i].0) {
        FirstHitUnique(ColumnMap, lowered, i);
        column := Some(ColumnMap[i].1);
        return;
      }
      i := i + 1;
    }
  }

  /** Any query whose lower-cased text contains "id" reads column `employee_id`,
      and no other query does: "id" is the first key, and the only other key
      mapped to `employee_id` contains it. */
  lemma ColumnIsEmployeeIdIffIdCue(query: string)
    ensures DetectColumn(query) == Some("employee_id") <==> Contains(Lower(query), "id")
  {
    var lowered := Lower(query);
    if Contains(lowered, "id") {
      FirstHitUnique(ColumnMap, lowered, 0);
    }
    if DetectColumn(query) == Some("employee_id") {
      var k := FirstHit(ColumnMap, lowered).value;
      assert k == 0 || k == 1;
      if k == 1 {
        assert OccursAt("employee id", "id", 9);
        ContainsTrans(lowered, "employee id", "id");
      }
    }
  }

  /** The keys "employee id", "phone number", "skills" and "skill set" are never
      the first hit: each contains a key listed before it. */
  lemma ShadowedColumnKeys(query: string)
    ensures var hit := FirstHit(ColumnMap, Lower(query));
            hit != Some(1) && hit != Some(7) && hit != Some(10) && hit != Some(11)
  {
    var lowered := Lower(query);
    assert OccursAt(ColumnMap[1].0, ColumnMap[0].0, 9);
    ShadowedKey(ColumnMap, lowered, 0, 1);
    assert OccursAt(ColumnMap[7].0, ColumnMap[6].0, 0);
    ShadowedKey(ColumnMap, lowered, 6, 7);
    assert OccursAt(ColumnMap[10].0, ColumnMap[9].0, 0);
    ShadowedKey(ColumnMap, lowered, 9, 10);
    assert OccursAt(ColumnMap[11].0, ColumnMap[9].0, 0);
    ShadowedKey(ColumnMap, lowered, 9, 11);
  }

  // ---------------------------------------------------------------------
  // Identifier stage
  // ---------------------------------------------------------------------

  /** `"employee id" in query.lower() or "id" in query.lower()`. */
  predicate HasIdCue(query: string) {
    Contains(Lower(query), "employee id") || Contains(Lower(query), "id")
  }

  /** The "employee id" half of the cue is redundant: it holds exactly when "id" occurs. */
  lemma IdCueIsId(query: string)
    ensures HasIdCue(query) <==> Contains(Lower(query), "id")
  {
    if Contains(Lower(query), "employee id") {
      assert OccursAt("employee id", "id", 9);
      ContainsTrans(Lower(query), "employee id", "id");
    }
  }

  /** The index of the first token whose first character is upper case. */
  function FirstCapitalized(words: seq<string>): (r: Option<nat>)
    requires forall k :: 0 <= k < |words| ==> words[k] != []
    ensures r.Some? ==> r.value < |words| && IsUpper(words[r.value][0])
    ensures r.Some? ==> forall j :: 0 <= j < r.value ==> !IsUpper(words[j][0])
    ensures r.None? ==> forall j :: 0 <= j < |words| ==> !IsUpper(words[j][0])
    decreases |words|
  {
    if words == [] then None
    else if IsUpper(words[0][0]) then Some(0)
    else match FirstCapitalized(words[1..])
      case None => None
      case Some(k) => Some(k + 1)
  }

  /** The identifier the query names, before the emptiness check. */
  function DetectIdentifier(query: string): (r: Option<Identifier>)
    ensures HasIdCue(query) ==>
      r.Some? && r.value.column == "employee_id" && r.value.value == Digits(query) && AllDigits(r.value.value)
    ensures !HasIdCue(query) ==>
      (r.Some? <==> exists k :: 0 <= k < |Words(query)| && IsUpper(Words(query)[k][0]))
    ensures !HasIdCue(query) && r.Some? ==>
      var words := Words(query);
      && r.value.column == "name" && IsWord(r.value.value)
      && exists k :: 0 <= k < |words| && r.value.value == words[k] && IsUpper(words[k][0])
           && forall j :: 0 <= j < k ==> !IsUpper(words[j][0])
  {
    if HasIdCue(query) then Some(Identifier("employee_id", Digits(query)))
    else
      var words := Words(query);
      match FirstCapitalized(words)
      case None => None
      case Some(k) => Some(Identifier("name", words[k]))
  }

  /** The identifier branch: the digit join, or the loop over `query.split()` with its `break`. */
  method ResolveIdentifier(query: string) returns (identifier: Option<Identifier>)
    ensures identifier == DetectIdentifier(query)
  {
    var lowered := Lower(query);
    identifier := None;
    if Contains(lowered, "employee id") || Contains(lowered, "id") {
      identifier := Some(Identifier("employee_id", Digits(query)));
    } else {
      var words := Words(query);
      var i := 0;
      while i < |words|
        invariant 0 <= i <= |words|
        invariant forall j :: 0 <= j < i ==> !IsUpper(words[j][0])
        invariant identifier.None?
      {
        if IsUpper(words[i][0]) {
          var r := FirstCapitalized(words);
          assert r.Some? && !(r.value < i) && !(i < r.value);
          identifier := Some(Identifier("name", words[i]));
          return;
        }
        i := i + 1;
      }
    }
  }

  // ---------------------------------------------------------------------
  // Both stages, and the output
  // ---------------------------------------------------------------------

  /** The staged parse of `fetchdata`: column first, then a non-empty identifier. */
  function ParseFetch(query: string): (r: Parse)
    ensures r.FieldNotFound? <==> DetectColumn(query).None?
    ensures r.IdentifierNotFound? <==>
      (DetectColumn(query).Some? && (DetectIdentifier(query).None? || DetectIdentifier(query).value.value == []))
    ensures r.Command? ==>
      && Some(r.stmt.column) == DetectColumn(query)
      && DetectIdentifier(query) == Some(Identifier(r.stmt.identifier, r.stmt.value))
      && r.stmt.value != []
  {
    match DetectColumn(query)
    case None => FieldNotFound
    case Some(column) =>
      match DetectIdentifier(query)
      case None => IdentifierNotFound
      case Some(id) =>
        if id.value == [] then IdentifierNotFound
        else Command(Select(column, id.column, id.value))
  }

  /** The text returned for the row (or its absence) that `stmt` produced. */
  function Reply(stmt: Select, lookup: Lookup): (out: string)
    ensures lookup.Row? ==>
      var p := stmt.column + ": "; StartsWith(out, p) && out[|p|..] == lookup.first
    ensures lookup.NoRow? ==>
      StartsWith(out, NoRecordPrefix) && out[|NoRecordPrefix|..] == stmt.identifier + " = " + stmt.value
    ensures lookup.DbError? ==>
      StartsWith(out, DbErrorPrefix) && out[|DbErrorPrefix|..] == lookup.message
  {
    match lookup
    case Row(v) => Glued(stmt.column + ": ", v); stmt.column + ": " + v
    case NoRow =>
      Glued(NoRecordPrefix, stmt.identifier + " = " + stmt.value);
      NoRecordPrefix + (stmt.identifier + " = " + stmt.value)
    case DbError(e) => Glued(DbErrorPrefix, e); DbErrorPrefix + e
  }

  const NoRecordPrefix: string := "❌ No record found for "
  const DbErrorPrefix: string := "❌ Database error: "

  /** `fetchdata(query)`: the database is consulted (`issued`) exactly when both
      stages succeed; otherwise the stage's error text is returned. */
  method Fetch(query: string, db: Select -> Lookup) returns (out: string, issued: Option<Select>)
    ensures ParseFetch(query).FieldNotFound? ==> out == FieldError && issued.None?
    ensures ParseFetch(query).IdentifierNotFound? ==> out == IdentifierError && issued.None?
    ensures ParseFetch(query).Command? ==>
      var stmt := ParseFetch(query).stmt;
      issued == Some(stmt) && out == Reply(stmt, db(stmt))
  {
    issued := None;
    var column := ResolveColumn(query);
    if column.None? {
      out := FieldError;
      return;
    }
    var identifier := ResolveIdentifier(query);
    if identifier.None? || identifier.value.value == [] {
      out := IdentifierError;
      return;
    }
    var stmt := Select(column.value, identifier.value.column, identifier.value.value);
    issued := Some(stmt);
    out := Reply(stmt, db(stmt));
  }

  // ---------------------------------------------------------------------
  // Properties of the parse
  // ---------------------------------------------------------------------

  /** With an "id" cue both the column and the identifier are `employee_id`,
      and the value is every digit of the query; with no digit at all the
      result is the identifier error. */
  lemma IdCueParse(query: string)
    requires Contains(Lower(query), "id")
    ensures ParseFetch(query) ==
      if Digits(query) == [] then IdentifierNotFound
      else Command(Select("employee_id", "employee_id", Digits(query)))
  {
    ColumnIsEmployeeIdIffIdCue(query);
    IdCueIsId(query);
  }

  /** Without an "id" cue a command names the first capitalised token, and the
      identifier error means no token is capitalised. */
  lemma NameParse(query: string)
    requires !Contains(Lower(query), "id") && DetectColumn(query).Some?
    ensures var words := Words(query);
      ParseFetch(query).Command? <==> exists k :: 0 <= k < |words| && IsUpper(words[k][0])
    ensures var p := ParseFetch(query); var words := Words(query);
      p.Command? ==>
        && p.stmt.identifier == "name"
        && exists k :: 0 <= k < |words| && p.stmt.value == words[k] && IsUpper(words[k][0])
             && forall j :: 0 <= j < k ==> !IsUpper(words[j][0])
  {
    IdCueIsId(query);
    var words := Words(query);
    var r := FirstCapitalized(words);
    if r.Some? {
      var k := r.value;
      assert 0 <= k < |Words(query)| && IsUpper(Words(query)[k][0]);
      assert ParseFetch(query) == Command(Select(DetectColumn(query).value, "name", words[k]));
    } else {
      assert ParseFetch(query) == IdentifierNotFound;
    }
  }

  /** A query that opens with a capitalised word, such as "What ...", and has no
      "id" cue names that word. */
  lemma LeadingCapitalName(w: string, c: char, rest: string)
    requires IsWord(w) && IsUpper(w[0]) && IsSpace(c)
    requires var q := w + [c] + rest; !Contains(Lower(q), "id") && DetectColumn(q).Some?
    ensures var q := w + [c] + rest; ParseFetch(q) == Command(Select(DetectColumn(q).value, "name", w))
  {
    var q := w + [c] + rest;
    WordsOfLeadingWord(w, c, rest);
    IdCueIsId(q);
  }

  /** Two separate id cues: their numbers are run together, "2" and "3" giving "23". */
  lemma TwoIdCuesConcatenate()
    ensures ParseFetch("id 2 and id 3") == Command(Select("employee_id", "employee_id", "23"))
  {
    ExampleDigits();
    ExampleCue();
    IdCueParse("id 2 and id 3");
  }

  lemma ExampleDigits()
    ensures Digits("id 2 and id 3") == "23"
  {
  }

  lemma ExampleCue()
    ensures Contains(Lower("id 2 and id 3"), "id")
  {
    assert Lower("id 2 and id 3")[0..2] == "id";
    assert OccursAt(Lower("id 2 and id 3"), "id", 0);
  }
}
