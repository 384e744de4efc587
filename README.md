# Orchestrator command interpretation, modelled in Dafny

The Orchestrator is a small multi-agent system. An orchestrator service asks a
language model which agent should handle a prompt, and that agent runs it:

- Agent1 stores content, answers questions about it, and sends mail.
- Agent2 reads and updates an employee table.

This project models the deterministic part of that system, down to the exact
strings it returns:

- the keyword and regex parsing that turns free text into a database command
  (`fetchdata`, `parse_query` / `updatedata`);
- Agent1's tool dispatch, its single-slot memory and its mail-request split;
- the orchestrator's two-step routing workflow.

Modules, one file each:

- `Wrappers` (`wrappers.dfy`): `Option`.
- `Text` (`text.dfy`): Python's string builtins as used by the code, on ASCII.
  - `str.lower`, `str.strip`, `split()` and `split(sep)`, `sep.join`;
  - the `in` substring test, and the first-occurrence search (`IndexOf`)
    that `split(sep)` relies on;
  - `isdigit`, `int()` of a digit run and `str()` of an int;
  - the leftmost-start search of `re.search`;
  - "first key of an ordered dict occurring in a text".
- `FetchData` (`fetchdata.dfy`): `fetchdata`. It takes the column from the
  first COLUMN_MAP key. When "id" occurs, the identifier is every digit of
  the query, wherever it stands; otherwise it is the first capitalised token.
- `UpdateData` (`updatedata.dfy`): `parse_query` with its three staged
  errors, and `updatedata`.
  - The id, name and value regexes (`re.IGNORECASE`) are written out as
    scanners that follow the backtracking engine's choices for these
    patterns: greedy runs, the order of alternatives, and the leftmost start.
  - `updatedata` decides whether the database is touched and whether it
    commits.
- `Agent1` (`agent1.dfy`): the `memory` dict as a class, and
  `content_reader`, `qa_tool`, the `mail_sender` reply, the mail split and
  `agent_node`.
- `Orchestrator` (`orchestrator.dfy`): the AGENTS label set, the
  `OrchestratorState` record as a class updated by `decide_agent` and
  `execute_agent`, and `run_task`.

Loops that update a variable in the source are methods with loop invariants.
Each is proved equal to a specification function whose properties are lemmas:

- the COLUMN_MAP and field_map loops with `break`;
- the capitalised-token loop;
- the `result` dict filled in by `parse_query`.

External collaborators are parameters. Methods report which call they
issued, so "no database access" and "the model is not asked" are proved
rather than assumed:

- the classifier's reply (`decision`, `classify`);
- the Q&A model (`llm`);
- SMTP (`smtp`);
- MySQL (`db`);
- the agent handlers (`handler`).

Behaviour in the code that departs from its documented intent. The model
follows the code in each case:

- "Update Sujoy address to Kolkata" is not an update of Sujoy's address. The
  name regex of `parse_query` needs a "name" or "for" cue before the name,
  so this request gets the identifier error.
- In `fetchdata`, the key "employee id" can never be the match, because "id"
  comes earlier in COLUMN_MAP. The same holds for "phone number", "skills" and
  "skill set". Every query that mentions "id" reads `employee_id`.
- The mail recipient is the text between the first and the second "to", not
  everything after the first one. So in "to tom@x with message hi" the
  address is the blank between the two "to"s, before "tom", and it strips
  to "".
- `int()` drops leading zeros, so "id=007" reports employee 7.

## Model

| member | source | states |
|---|---|---|
| Text.Lower | Orchestrator/agent2/tools/fetchdata.py:50 | `query.lower()` keeps the length and maps each character through ASCII lower-casing |
| Text.IndexOf | Orchestrator/agent1/agent1.py:155 | finds an occurrence exactly when the substring test holds, and the position found is the first occurrence |
| Text.Strip | Orchestrator/agent2/tools/updatedata.py:23 | `strip()` removes only whitespace, from both ends, and leaves text that neither starts nor ends with whitespace; the result is exactly the text between the leading and the trailing whitespace runs, or "" for blank text |
| Text.StripIdempotent | Orchestrator/agent2/tools/updatedata.py:23 | stripping twice is stripping once |
| Text.StripLower | Orchestrator/agent1/agent1.py:148 | `strip()` and `lower()` commute |
| Text.Words | Orchestrator/agent2/tools/fetchdata.py:62 | `split()` yields non-empty tokens free of whitespace, and no token exactly when the text is all whitespace |
| Text.WordsOfSpacePrefix | Orchestrator/agent2/tools/fetchdata.py:62 | leading whitespace adds no token |
| Text.WordsOfWord | Orchestrator/agent2/tools/fetchdata.py:62 | a single whitespace-free token splits into itself |
| Text.WordsOfJoin | Orchestrator/agent2/tools/fetchdata.py:62 | tokens joined by single blanks split back into the same tokens, in the same order |
| Text.WordsOfLeadingWord | Orchestrator/agent2/tools/fetchdata.py:62 | a text that opens with a token and a blank splits into that token followed by the split of the rest |
| Text.Split | Orchestrator/agent1/agent1.py:155-156 | `split(sep)` has a first piece equal to the text up to the first separator, and a second piece exactly when the separator occurs |
| Text.JoinSplit | Orchestrator/agent1/agent1.py:155-156 | `sep.join(s.split(sep)) == s` |
| Text.SplitPiecesFree | Orchestrator/agent1/agent1.py:155-156 | no piece of `split(sep)` contains the separator |
| Text.SplitSecond | Orchestrator/agent1/agent1.py:156 | the second piece is the text after the first separator, up to the next one |
| Text.Digits | Orchestrator/agent2/tools/fetchdata.py:60 | the digit join holds only digit characters and is no longer than the text |
| Text.DigitsAppend | Orchestrator/agent2/tools/fetchdata.py:60 | the digit join of a concatenation is the concatenation of the joins, so digits from separate places run together |
| Text.DigitsNone | Orchestrator/agent2/tools/fetchdata.py:60 | text without a digit contributes nothing to the join |
| Text.DigitsOfDigits | Orchestrator/agent2/tools/fetchdata.py:60 | a run of digits is kept whole |
| Text.NatToStringShape | Orchestrator/agent2/tools/updatedata.py:105 | `str()` of an int is a non-empty digit string that starts with "0" only for 0 |
| Text.DigitsValueOfNatToString | Orchestrator/agent2/tools/updatedata.py:58 | `int(str(n)) == n` |
| Text.Leftmost | Orchestrator/agent2/tools/updatedata.py:56 | `re.search` reports the match at the leftmost start position where the pattern matches, and nothing when no position matches |
| Text.FirstHit | Orchestrator/agent2/tools/fetchdata.py:49-52 | the first key of an ordered table, in declared order, that occurs in the text; None when none occurs |
| Text.ShadowedKey | Orchestrator/agent2/tools/fetchdata.py:8-21 | a key that contains an earlier key is never the first hit |
| FetchData.DetectColumn | Orchestrator/agent2/tools/fetchdata.py:8-21 | the column is the mapped value of the first COLUMN_MAP key occurring in the lower-cased query; none exactly when no key occurs |
| FetchData.ResolveColumn | Orchestrator/agent2/tools/fetchdata.py:48-52 | the `for`/`break` loop yields the column `DetectColumn` specifies |
| FetchData.ColumnIsEmployeeIdIffIdCue | Orchestrator/agent2/tools/fetchdata.py:8-52 | the column is `employee_id` if and only if "id" occurs in the lower-cased query |
| FetchData.ShadowedColumnKeys | Orchestrator/agent2/tools/fetchdata.py:9-20 | "employee id", "phone number", "skills" and "skill set" are never the key that decides the column |
| FetchData.IdCueIsId | Orchestrator/agent2/tools/fetchdata.py:58 | the condition `"employee id" in q or "id" in q` holds exactly when "id" occurs |
| FetchData.DetectIdentifier | Orchestrator/agent2/tools/fetchdata.py:57-67 | with an "id" cue, the `employee_id` identifier whose value is every digit of the query; without one, an identifier exists exactly when some token is capitalised, and it is the `name` identifier of the first such token |
| FetchData.FirstCapitalized | Orchestrator/agent2/tools/fetchdata.py:63-67 | the index found is that of a token starting with an upper-case letter, and no earlier token does; none when no token does |
| FetchData.ResolveIdentifier | Orchestrator/agent2/tools/fetchdata.py:57-67 | the identifier branch and its token loop with `break` compute the identifier `DetectIdentifier` specifies |
| FetchData.ParseFetch | Orchestrator/agent2/tools/fetchdata.py:46-69 | the field error exactly when no column is found; the identifier error exactly when a column is found but no non-empty identifier; otherwise the SELECT carries the detected column and identifier |
| FetchData.Reply | Orchestrator/agent2/tools/fetchdata.py:86-92 | a row gives `column: ` and its first value; no row gives the no-record text and `identifier = value`; an exception gives the database-error text and its message |
| FetchData.Fetch | Orchestrator/agent2/tools/fetchdata.py:46-92 | without a column, the field error and no query; without a non-empty identifier, the identifier error and no query; otherwise the SELECT is issued and the reply is `column: v`, the no-record text or the database error |
| FetchData.IdCueParse | Orchestrator/agent2/tools/fetchdata.py:58-69 | with an "id" cue, column and identifier are both `employee_id` and the value is every digit of the query; with no digit at all, the identifier error |
| FetchData.NameParse | Orchestrator/agent2/tools/fetchdata.py:61-69 | without an "id" cue, a command exists exactly when some token is capitalised, and it names the first such token |
| FetchData.LeadingCapitalName | Orchestrator/agent2/tools/fetchdata.py:62-67 | a query opening with a capitalised word, such as "What …", names that word |
| FetchData.TwoIdCuesConcatenate | Orchestrator/agent2/tools/fetchdata.py:60 | "id 2 and id 3" asks for employee "23" |
| UpdateData.DetectField | Orchestrator/agent2/tools/updatedata.py:32-49 | the field is the mapped value of the first field_map term occurring in the lower-cased query; none exactly when no term occurs |
| UpdateData.FieldIsEmployeeIdIffIdCue | Orchestrator/agent2/tools/updatedata.py:32-49 | the field is `employee_id` if and only if "id" occurs in the lower-cased query |
| UpdateData.ShadowedFieldTerms | Orchestrator/agent2/tools/updatedata.py:39-42 | "phone number" and "skills" are never the term that decides the field |
| UpdateData.IdTail | Orchestrator/agent2/tools/updatedata.py:56 | `\s*[=:]\s*(\d+)` captures a non-empty digit run, and only when a `=` or `:` follows the cue |
| UpdateData.IdTailMatch | Orchestrator/agent2/tools/updatedata.py:56 | the tail matches exactly when the blanks after the cue end at `=` or `:` and the blanks after that end at a digit; the capture is that whole digit run |
| UpdateData.IdAt | Orchestrator/agent2/tools/updatedata.py:56 | the id pattern at one start position matches only where "id" or "employee" starts; its capture is what the tail `\s*[=:]\s*(\d+)` captures right after "id" (at `p + 2`), or right after the "id" that follows "employee" and its blanks |
| UpdateData.EmployeeIdAt | Orchestrator/agent2/tools/updatedata.py:56 | the `employee\s+id` alternative matches only at "employee", a whitespace run and "id", and its capture is what the tail after that "id" captures |
| UpdateData.EmployeeCue | Orchestrator/agent2/tools/updatedata.py:56 | at an "employee" cue the id pattern is the tail after the following blanks and "id", and fails when no blank and "id" follow |
| UpdateData.EmployeeCueExample | Orchestrator/agent2/tools/updatedata.py:56 | "employee id = 42" captures "42" |
| UpdateData.EmployeeCueMatches | Orchestrator/agent2/tools/updatedata.py:56 | at an "employee" cue only the `employee\s+id` alternative can match, since "id" cannot start there |
| UpdateData.IdSearch | Orchestrator/agent2/tools/updatedata.py:56-57 | the capture is the one at the leftmost start where the id pattern matches; there is none exactly when it matches at no start |
| UpdateData.IdNeedsSeparator | Orchestrator/agent2/tools/updatedata.py:56-58 | with no `=` or `:` in the query the id pattern never matches, so "employee id 123" is not an id |
| UpdateData.IdCueMatches | Orchestrator/agent2/tools/updatedata.py:56 | at an "id" cue in any case, the match is `\s*[=:]\s*(\d+)` applied right after the cue |
| UpdateData.IdCueExamples | Orchestrator/agent2/tools/updatedata.py:56-58 | "id=42" and "ID : 42" both capture "42" |
| UpdateData.IdTailNeedsAdjacentSeparator | Orchestrator/agent2/tools/updatedata.py:56 | in "id 123 phone: 9" the tail after the cue fails, because a digit rather than a separator follows the blank |
| UpdateData.ExtendName | Orchestrator/agent2/tools/updatedata.py:61 | `(?:\s+[A-Z][a-z]+)*` covers only letters and blanks, ends on a letter, and stops only where no further blank-then-two-letters word follows |
| UpdateData.ExtendNameTakesWholeWords | Orchestrator/agent2/tools/updatedata.py:61 | what the repetition passes over is whole repetitions, each a whole whitespace run followed by a whole run of two or more letters |
| UpdateData.ExtendNameEndsWord | Orchestrator/agent2/tools/updatedata.py:61 | the repetition never stops inside a run of letters |
| UpdateData.NameTail | Orchestrator/agent2/tools/updatedata.py:61 | the tail after a cue matches exactly when whitespace and then two or more letters follow; the capture has at least two characters, is made of letters and blanks, and starts and ends with a letter |
| UpdateData.NameAt | Orchestrator/agent2/tools/updatedata.py:61 | the name pattern at one start matches only at a "name" or "for" cue, and its capture is the tail after that cue |
| UpdateData.NameCue | Orchestrator/agent2/tools/updatedata.py:61 | at "name" the pattern is the tail after it, at "for" the tail after it, and with neither cue it fails |
| UpdateData.NameSearch | Orchestrator/agent2/tools/updatedata.py:61-62 | the capture is the one at the leftmost start where the name pattern matches; there is none exactly when it matches at no start |
| UpdateData.NameNeedsCue | Orchestrator/agent2/tools/updatedata.py:61 | a query without "n", "N", "f" or "F" never matches the name pattern |
| UpdateData.NameCaptureIsGreedy | Orchestrator/agent2/tools/updatedata.py:61-63 | the capture starts right after the cue's blanks with a whole run of two or more letters, continues with whole words, and ends where no letter and no further word follows |
| UpdateData.NameCaptureExample | Orchestrator/agent2/tools/updatedata.py:61 | after "for", "John Doe to New York" is captured whole, "to" included |
| UpdateData.NameSearchExample | Orchestrator/agent2/tools/updatedata.py:61-62 | `re.search` of the name pattern on "for John Doe to New York" captures "John Doe to New York" |
| UpdateData.NameIgnoresCase | Orchestrator/agent2/tools/updatedata.py:61 | under IGNORECASE a lower-case word after the cue is captured like a capitalised one |
| UpdateData.IdentifierOf | Orchestrator/agent2/tools/updatedata.py:56-63 | an id match gives the employee id `int()` of its digits; without one, an identifier exists exactly when the name pattern matches, and it is that capture |
| UpdateData.LeadingZerosDropped | Orchestrator/agent2/tools/updatedata.py:58 | `int("007")` shows as "7" in the reply |
| UpdateData.ValueWithSpaces | Orchestrator/agent2/tools/updatedata.py:70 | a value capture is non-empty and free of `.,;!?` |
| UpdateData.ValueTail | Orchestrator/agent2/tools/updatedata.py:70 | the pattern after a cue yields a non-empty, punctuation-free capture |
| UpdateData.ValueAt | Orchestrator/agent2/tools/updatedata.py:70 | the value pattern at one start matches only at a "to", "as" or "with" cue, and its capture is the tail after that cue |
| UpdateData.ValueCue | Orchestrator/agent2/tools/updatedata.py:70 | at "to" or "as" the pattern is the tail after those two letters, at "with" the tail after it, and with no cue it fails |
| UpdateData.ValueSearch | Orchestrator/agent2/tools/updatedata.py:70 | the capture is the one at the leftmost start where the value pattern matches; there is none exactly when it matches at no start |
| UpdateData.ValueOf | Orchestrator/agent2/tools/updatedata.py:70-72 | there is a value exactly when the value search matches; it is the stripped capture, and never contains `.,;!?` |
| UpdateData.ValueRunsToPunct | Orchestrator/agent2/tools/updatedata.py:70-72 | after a cue and its blanks, the capture runs from the first non-blank to the next punctuation mark or the end, so "to set phone number to 555-1234" yields "set phone number to 555-1234" |
| UpdateData.ValueBlankCapture | Orchestrator/agent2/tools/updatedata.py:70-77 | a cue followed by two or more blanks and then punctuation or the end captures one blank, which strips to the empty value |
| UpdateData.ValueTailFails | Orchestrator/agent2/tools/updatedata.py:70 | after a cue the pattern fails exactly when no whitespace follows, or one blank is followed by the end or punctuation |
| UpdateData.Parse | Orchestrator/agent2/tools/updatedata.py:21-77 | on the stripped query: the field error exactly when no field term occurs; the identifier error exactly when a field is found but no identifier; the value error exactly when both are found and the stripped value is missing or empty; with no error, all three parts are present |
| UpdateData.SujoyAddressNeedsCue | Orchestrator/agent2/tools/updatedata.py:56-67 | "Update Sujoy address to Kolkata" gets the identifier error |
| UpdateData.ParseQuery | Orchestrator/agent2/tools/updatedata.py:21-77 | the staged parse: no field gives only the field error; no identifier gives the field and the identifier error; otherwise field, identifier and value are kept, with the value error exactly when the value is missing or empty |
| UpdateData.CompleteParseValue | Orchestrator/agent2/tools/updatedata.py:74-77 | a parse with no error carries a non-empty value free of punctuation |
| UpdateData.UpdateReply | Orchestrator/agent2/tools/updatedata.py:104-117 | the reply starts with the check mark exactly when at least one row was affected; it is the success text with the field and the employee, the no-match text with the identifier, or the database or outer error text with the message |
| UpdateData.UpdateEmployee | Orchestrator/agent2/tools/updatedata.py:89-117 | a parse error returns "❌ " + error with no statement and no commit; otherwise the UPDATE is issued, and it commits exactly when it affected at least one row; the reply is the success, no-match, database-error or error text |
| Agent1.Memory.constructor | Orchestrator/agent1/agent1.py:19 | memory starts with empty content |
| Agent1.ContentReader | Orchestrator/agent1/agent1.py:29-32 | the content slot is overwritten with the whole text and the fixed success string is returned |
| Agent1.StoreTwiceKeepsLast | Orchestrator/agent1/agent1.py:29-32 | storing "A" and then "B" leaves "B" |
| Agent1.QaTool | Orchestrator/agent1/agent1.py:77-90 | on empty memory, the warning and no model call; otherwise the model is asked about exactly the stored content and the question, and its answer is returned |
| Agent1.AskBeforeStore | Orchestrator/agent1/agent1.py:79-80 | a question before any content is stored gets the warning and never reaches the model |
| Agent1.ParseMail | Orchestrator/agent1/agent1.py:154-160 | a request parses exactly when "with message" occurs and "to" occurs before it; the address is the text between the first and second "to" of that part, stripped, and the message is the text between the first and second "with message", stripped |
| Agent1.ParsedMailPiecesFree | Orchestrator/agent1/agent1.py:155-157 | a parsed address never contains "to" and a parsed message never contains "with message" |
| Agent1.AddressWithToIsCut | Orchestrator/agent1/agent1.py:155-157 | "to tom@x with message hi" yields the empty address and the message "hi" |
| Agent1.MailReply | Orchestrator/agent1/agent1.py:61-63 | the reply starts with the mail symbol exactly when the transport reported success; it is the sent text with the address, or the failure text with the exception message |
| Agent1.Dispatch | Orchestrator/agent1/agent1.py:148-164 | on the stripped, lower-cased reply, ContentReader runs exactly when "contentreader" occurs, MailSender exactly when it does not and "mailsender" does, QnATool exactly when only "qnatool" occurs, and otherwise the normalised reply is kept |
| Agent1.DispatchIgnoresCase | Orchestrator/agent1/agent1.py:148 | the tool chosen does not depend on the case of the reply |
| Agent1.AgentNode | Orchestrator/agent1/agent1.py:109-164 | only ContentReader changes memory; MailSender sends exactly the parsed request or, on a malformed one, returns the format warning without sending; QnATool applies the emptiness guard; an unrecognised reply returns the couldn't-decide text with the normalised reply |
| Orchestrator.Route | Orchestrator/orchestrator-agent/main.py:91-92 | the decision is always an AGENTS key: the stripped reply when it is one, otherwise "Agent1" |
| Orchestrator.RouteToAgent2 | Orchestrator/orchestrator-agent/main.py:92 | "Agent2" is chosen if and only if the stripped reply is exactly "Agent2" |
| Orchestrator.RouteIsCaseSensitive | Orchestrator/orchestrator-agent/main.py:92 | the reply "agent2" routes to "Agent1" |
| Orchestrator.RouteIgnoresPadding | Orchestrator/orchestrator-agent/main.py:91 | blanks around the reply do not change the route |
| Orchestrator.State.constructor | Orchestrator/orchestrator-agent/main.py:134 | the run starts from the prompt with an empty decision and an empty result |
| Orchestrator.State.DecideAgent | Orchestrator/orchestrator-agent/main.py:78-93 | only the decision changes, and it becomes the route of the classifier's reply to the prompt |
| Orchestrator.State.ExecuteAgent | Orchestrator/orchestrator-agent/main.py:95-98 | the chosen agent's handler gets the unmodified prompt and its return value becomes the result; prompt and decision are unchanged |
| Orchestrator.RunTask | Orchestrator/orchestrator-agent/main.py:133-136 | the response's agent is the routed AGENTS key and its result is that agent's handler applied to the original prompt |

## Left out

- Language-model calls and their prompt texts. The classifier's reply and
  the Q&A answer are parameters, so what a model would answer is not
  modelled.
- SMTP: sender address, login, MIME building and the transport. The
  parameter `smtp` reports success or the exception text.
- MySQL: connecting, the SQL text, `fetchone`, `rowcount`, rollback, close
  and the debug print. The parameter `db` yields a row, no row, an
  affected-row count or an error message.
- FetchData.Fetch: every exception inside `fetchdata` becomes the database
  error reply, and `db` is what reports it. A row value is an abstract
  string, so how `str()` renders a SQL NULL or a number is not modelled.
- UpdateData.IdentifierOf: `int()` of the id digits is unbounded here.
  Since Python 3.11, `int()` raises `ValueError` for a digit string longer
  than 4300 characters (the default conversion limit). `updatedata` would
  then return its outer "❌ Error: …" reply without touching the database.
  The model instead parses such an id, and `UpdateData.ParseQuery` and
  `UpdateData.UpdateEmployee` go on to issue the UPDATE. The limit depends
  on the interpreter version and its settings, so it is not modelled.
- UpdateData.UpdateEmployee: any failure before or while connecting becomes
  `ConnectError`, the outer `except Exception` reply. The rollback on a
  `pymysql.Error` and the closing of the connection have no observable
  result here.
- Orchestrator.State.ExecuteAgent: it requires the decision to be an AGENTS
  key instead of modelling the `KeyError`. `decide_agent` always
  establishes this, and `RunTask` shows it.
- The agent handlers are opaque: agent1's LangGraph app, and the local
  `agent2_handler` that shadows the import and refers to a missing name.
  Orchestrator/agent2/agents/agent2.py, which holds the tool-calling agent
  loop, is not part of this model. Neither is Orchestrator/agent2/main.py,
  a console loop.
- The FastAPI app, `GET /`, Agent1's console loop, the LangGraph graph
  construction and the tool descriptions. Only the linear two-node sequence
  is modelled, inside `RunTask`.
- Unicode: `lower`, `isupper`, `isdigit`, `isspace` and the regex classes
  `\s`, `\d` and `[A-Za-z]` are modelled on ASCII only.
- Concurrent access to the global `memory` dict. Each method sees a single
  sequential caller.
- The API key and the mail credentials in the source are not reproduced.
