# Natural-language restaurant search: the query pipeline

This project models the query pipeline of a small restaurant-review chat app (a browser app over a
language-model completion service and an embedded SQLite database). Given a user's question, the app:

1. builds a system prompt with the database schema;
2. asks the completion service for SQL;
3. splits the completion into statements;
4. checks each statement with a SQL parser;
5. asks the service to repair the rejected statements, for at most three rounds;
6. runs the accepted statements one by one, recording rows or failure per statement;
7. asks the service for a natural-language answer built from those results.

It also models the API-key check and the chat record (`ChatMessage`, src/ChatMessage.tsx:19-38) whose
recent entries become context messages.

Modules, one per concern of src/logic.ts and src/instructions.ts:

- `Wrappers`: `Result` and `Option`.
- `Text`: the JavaScript string operations used. These are `trim` (the full ECMAScript whitespace set),
  one-character `split`, `join`, `replace(/\n/g, " ")` and `includes`.
- `Statements`: the completion splitter of `generateQueries` and `fixQueries`.
- `Instructions`: the three prompt builders, over the schema and prompt texts copied line by line.
- `Chat`: `ChatMessage`, the roles of request messages (`Role`, spelled out by `RoleName`), and the two
  mappings of the last three messages into request messages.
- `Completion`: the request each call sends, how a completion becomes statements or an error,
  `getResponse`, and `isValidApiKey`.
- `Executor`: `formatQueryResponse` and `runQueries`, as methods with loops, proved against the
  functions `RowObject`, `Rows` and `Batch`.
- `Orchestrator`: `getQueries`, as a method with the source's loop, proved equal to the function
  `Outcome`. It comes with lemmas about every run: what is accepted, which calls are made, and when
  the loop stops.

External collaborators are parameters:

- The completion service is a function from call number, key and request to a response. The call
  number lets replies differ between calls. A request carries its system message as the prompt
  builder call that produced it (`Completion.SystemPrompt`). `Completion.SystemText` gives that
  message's text through the builders of `Instructions`.
- The SQL parser check `validateQuery` is an arbitrary predicate `string -> bool`.
- The SQLite engine is a function of the statements already run in the batch and the next statement.
  The first argument stands for the database state those statements left behind.
- `JSON.stringify(queryResponses, null, 2)` is a parameter `serialise`.
- The probe `openai.models.list()` of the key check is a function from key to outcome.

`Orchestrator.Connect` builds the orchestrator's context from the service, the parser check, the key,
the prompt and the history. Its generation and repair calls are `Completion.GenerateQueries` and
`Completion.FixQueries`.

Two behaviours of the code are easy to misread, and the model follows the code in both:

- Round limit: three rounds read naturally as one generation call and two repair calls per prompt.
  The loop in fact requests a repair in every round with failures, so it can make up to three repair
  calls. It also makes a further generation call whenever a repair in the first or second round
  returns no statements.
  - `Orchestrator.AlwaysRejected`: three repairs, the third one's result discarded.
  - `Orchestrator.EmptyRepairRegenerates`: a second generation.
  - `Orchestrator.GetQueriesReturns`: the true bound over all runs.
- Duplicates: `success` and `fail` read as a partition of the statements, each in at most one.
  With duplicate statements in a batch, the code can put one statement in both
  (`Executor.DuplicateInBoth`).

## Model

| member | source | states |
|---|---|---|
| Text.Trim | src/logic.ts:80 | the result has no whitespace at either end and is the slice of the input left after removing only whitespace from both ends |
| Text.ReplaceNewlines | src/logic.ts:80 | same length; every newline becomes a space, every other character is kept; no newline remains |
| Text.Split | src/logic.ts:79 | one more piece than there are separators; no piece contains the separator; joining the pieces with the separator gives back the input |
| Text.Join | src/logic.ts:56 | defines `join`: no parts give the empty text, one part is itself, and further parts follow a separator each; `Text.Split` and `Statements.ParseJoined` state its round trip |
| Text.Includes | src/logic.ts:227 | true exactly when the second text occurs contiguously in the first |
| Statements.CleanPiece | src/logic.ts:80 | a cleaned piece has no newline, is trimmed, and gains no `;` |
| Statements.Clean | src/logic.ts:80-82 | defines the chain over the pieces: each piece cleaned, the empty ones dropped, a `;` put back on the rest, in order; `Statements.CleanWellFormed` states what it yields |
| Statements.CleanWellFormed | src/logic.ts:80-82 | pieces free of `;` clean to at most one statement each, every one well formed (non-empty trimmed text free of `;` and newlines, then one `;`) |
| Statements.ParseStatements | src/logic.ts:78-82 | every statement it returns is well formed; there are at most (number of `;`) + 1 of them |
| Statements.ParseJoined | src/logic.ts:78-82 | well-formed statements joined by a whitespace separator parse back to exactly that list, in order |
| Statements.ParseIdempotent | src/logic.ts:78-82 | re-parsing the concatenated output of the splitter gives the same list |
| Instructions.QueryInstructions | src/instructions.ts:17-41 | the generation prompt is intro, schema and examples separated by blank lines; trimming removes only the last newline; the schema occurs in it; it is trimmed |
| Instructions.FixQueryInstructions | src/instructions.ts:43-50 | with no failed statements the prompt is exactly intro and schema, with no header; otherwise it continues with a blank line, the header and the statements joined by newline-space, trimmed only at the end; the schema occurs in it; it is trimmed |
| Instructions.FailedSection | src/instructions.ts:48 | defines the optional listing section: empty without failed statements, otherwise the header, a newline and the statements joined by newline-space; `Instructions.FixQueryInstructions` states the prompt it gives |
| Instructions.ListedVerbatim | src/instructions.ts:48 | when the last failed statement ends in a non-whitespace character (as every parsed statement does), trimming leaves the listing untouched and every failed statement occurs in it |
| Instructions.JoinContains | src/instructions.ts:48 | each element of a joined list occurs in the joined text |
| Instructions.ResponseInstructions | src/instructions.ts:52-63 | the answer prompt is the fixed lead, the serialised results verbatim (whatever whitespace they carry), a blank line and the fixed footer; the schema and the results occur in it; it is trimmed |
| Chat.RoleNamesDistinct | src/logic.ts:52 | two roles are spelled alike (by `RoleName`: "system", "user", "assistant") exactly when they are the same role, so the `Role` a message carries fixes the string sent and no two roles collide |
| Chat.SliceFromEnd | src/logic.ts:59 | `slice(-k)` keeps the last min(k, n) elements in order |
| Chat.LastMapped | src/logic.ts:50-59 | `map(f).slice(-k)` gives min(k, n) elements: element i is f of the i-th of the last ones, in order |
| Chat.MapThenSlice | src/logic.ts:50-59 | that window is exactly `SliceFromEnd` of the fully mapped list, so mapping before slicing, as the code does, is what is modelled |
| Chat.GenerationEntry | src/logic.ts:51-58 | role is user exactly for user messages, otherwise assistant; user text verbatim; an assistant answer as its statements joined by a space, or its text behind the other-agent prefix when it ran none |
| Chat.ResponseEntry | src/logic.ts:158-161 | role as above; the content is the message text, whoever wrote it |
| Chat.GenerationHistory | src/logic.ts:50-59 | min(3, n) messages: entry i shows the i-th of the last ones, in conversation order |
| Chat.ResponseHistory | src/logic.ts:157-162 | min(3, n) messages: entry i is the i-th of the last ones, verbatim, in order |
| Chat.HistoryForgetsOlder | src/logic.ts:50-59 | once there are three recent messages, older messages change neither history |
| Chat.AnswerQueriesRoundTrip | src/logic.ts:55-56 | an assistant answer's statements, as shown to the next generation, parse back to exactly those statements |
| Completion.FirstContent | src/logic.ts:76 | there is content exactly when the response has a first choice whose content is present and non-empty, and then it is that content |
| Completion.ChatRequest | src/logic.ts:62-75 | the request names the model and carries the given system prompt; after it come the context messages in order, then the user's prompt last |
| Completion.StatementsFrom | src/logic.ts:76-86 | statements exactly when there is first-choice content, and then they are its parse; a thrown service error becomes the prefix plus its message; an unusable completion becomes the prefix twice, then the parse-failure text |
| Completion.StatementsOrPrefixedError | src/logic.ts:84-86 | for any response: well-formed statements, or an error whose text starts with the call's prefix |
| Completion.GenerateQueries | src/logic.ts:47-88 | whatever the service replies: well-formed statements, or an error starting with "failed to generate sql query: " |
| Completion.FixQueries | src/logic.ts:90-120 | whatever the service replies: well-formed statements, or an error starting with "failed to fix sql queries: " |
| Completion.GetResponse | src/logic.ts:149-186 | the answer is the first choice's content when present; a thrown error becomes the response prefix plus its message; an unusable completion becomes the response prefix twice, then the parse-failure text, because the error thrown for it is caught and wrapped again; it never fails |
| Completion.AnswerOrPrefixedError | src/logic.ts:179-185 | whatever the service replies, the answer is the first choice's content or a text starting with "failed to generate response: " |
| Completion.IsValidApiKeyAsWritten | src/logic.ts:29-45 | an empty key is refused as missing; a key whose probe succeeds is accepted; every probe error, whatever its code, is reported as an invalid key |
| Completion.IsValidApiKey | src/logic.ts:29-45 | as above, except that a probe error is reported as an invalid key only for the invalid-key code; any other error passes on the error payload |
| Completion.KeyCheckAgreement | src/logic.ts:38-44 | the two key checks agree exactly when the probe does not fail, fails with the invalid-key code, or fails with the invalid-key text as payload |
| Completion.RateLimitedKeyReportedInvalid | src/logic.ts:39-42 | a rate-limited key is reported as invalid as written, and passes the rate-limit message on when corrected |
| Executor.Rows | src/logic.ts:205-211 | defines the records of one result set: one per row, in order, each built by `RowObject`; `Executor.FormatQueryResponse` is proved to return it |
| Executor.RowObject | src/logic.ts:206-209 | the record has a key for every cell's column name (or "undefined" past the columns), and no other keys |
| Executor.ConvertRow | src/logic.ts:206-209 | the inner loop over one row's cells builds exactly the record `RowObject` describes |
| Executor.RowLastCellWins | src/logic.ts:207-209 | a cell whose column name does not recur later is the value under that name |
| Executor.RowByColumn | src/logic.ts:204-209 | with distinct column names, each column maps to its own cell |
| Executor.FormatQueryResponse | src/logic.ts:199-213 | anything but exactly one result set is the one-entry error; otherwise one record per row, in order, each built from the columns and that row |
| Executor.Settle | src/logic.ts:220-232 | defines the fate of one statement: a thrown message containing the one-entry phrase gives the sentinel row, any other throw gives a failure; one result set gives its rows, any other count the sentinel row; `Executor.SentinelOnOtherCounts` and `Executor.PhraseInEngineError` state the sentinel cases |
| Executor.Batch | src/logic.ts:219-234 | defines the state after a list of statements: each one in order, run after those before it, recorded under `success` (replacing earlier rows) or appended to `fail`; `Executor.FailExactly`, `Executor.SuccessExactly` and `Executor.LastSuccessWins` state what it holds |
| Executor.RecordStep | src/logic.ts:224-231 | recording a statement puts it in `fail` exactly when it failed and among the `success` keys exactly when it succeeded, and leaves every other statement's membership as it was |
| Executor.RunQueries | src/logic.ts:215-236 | the result is the batch state after running every statement in order, each with the statements before it |
| Executor.FailExactly | src/logic.ts:226-232 | a statement is in `fail` exactly when one of its runs failed; nothing else is |
| Executor.SuccessExactly | src/logic.ts:222-228 | a statement has rows exactly when one of its runs succeeded or got the sentinel; nothing else has |
| Executor.EveryStatementSettles | src/logic.ts:219-234 | every statement of the batch ends up in `success` or in `fail` |
| Executor.LastSuccessWins | src/logic.ts:224 | a statement's rows are those of its last successful run; a later failure leaves them in place |
| Executor.SentinelOnOtherCounts | src/logic.ts:227-228 | zero or several result sets give the single "now rows returned" sentinel row, not a failure |
| Executor.PhraseInEngineError | src/logic.ts:227-228 | any engine error whose message contains the one-entry phrase is recorded with the sentinel row, not as a failure |
| Executor.DuplicateInBoth | src/logic.ts:219-234 | a statement run twice, failing first and then succeeding, is both a `success` key and in `fail` |
| Orchestrator.Connect | src/logic.ts:129-142 | the orchestrator's generation and repair calls are `generateQueries` and `fixQueries` on the same key and prompt (and history for generation), and its check is the parser check |
| Orchestrator.Passing | src/logic.ts:132-140 | defines the statements of a batch that pass the check, in batch order; `Orchestrator.FilterSound` and `Orchestrator.PartitionCounts` state its properties |
| Orchestrator.Failing | src/logic.ts:132-140 | defines the statements of a batch that fail the check, in batch order; `Orchestrator.FilterSound` and `Orchestrator.PartitionCounts` state its properties |
| Orchestrator.FilterSound | src/logic.ts:132-140 | accepted statements come from the batch and pass the check; failed ones come from the batch and fail it |
| Orchestrator.PartitionCounts | src/logic.ts:132-140 | accepted and failed counts add up to the batch size |
| Orchestrator.Check | src/logic.ts:132-143 | defines the second half of a round: accept the passing part, and request a repair of the failing part when it is not empty, throwing that call's error |
| Orchestrator.Round | src/logic.ts:128-144 | defines one round: generate when nothing is pending, then `Check` the batch; `Orchestrator.RoundEffect` states its effect |
| Orchestrator.Run | src/logic.ts:127-146 | defines the loop: rounds until one has no failures or three have run, stopping at the first error; `Orchestrator.RunKeeps` states what it keeps |
| Orchestrator.Outcome | src/logic.ts:122-147 | defines the result of `getQueries`: the accepted statements of the run, or its error; `Orchestrator.GetQueriesReturns` states its properties |
| Orchestrator.ValidateBatch | src/logic.ts:132-140 | the loop appends the passing statements to the accepted list and collects the failing ones, each in batch order |
| Orchestrator.CheckRound | src/logic.ts:132-143 | checking a batch and requesting repairs leaves the state the round definition gives, or ends with the repair call's error |
| Orchestrator.PlayRound | src/logic.ts:128-144 | one pass of the loop body leaves exactly the state of one round, or ends with the error of the call that threw |
| Orchestrator.GetQueries | src/logic.ts:122-147 | the method's loop returns exactly what the round-by-round definition of a run returns, including the first error thrown |
| Orchestrator.RoundEffect | src/logic.ts:128-144 | one round: generation exactly when nothing is pending; acceptance of the passing part; repair requested exactly when there are failures, with exactly those statements; the repaired list becomes pending |
| Orchestrator.RoundKeeps | src/logic.ts:127-145 | a round after a round with failures keeps the run invariant |
| Orchestrator.RunKeeps | src/logic.ts:127-145 | a run keeps the invariant and stops with no failures or after the third round |
| Orchestrator.GetQueriesReturns | src/logic.ts:122-147 | when a run returns: 1 to 3 rounds; every returned statement passed the check; the result is the passing part of each batch, in round order; it stopped at the first clean round or the third; each repair got exactly one round's failures; 1 to 3 generations, at most 6 calls |
| Orchestrator.AcceptedSound | src/logic.ts:133-135 | everything accepted from any list of batches passed the check |
| Orchestrator.ErrorsComeFromCalls | src/logic.ts:130-142 | a run throws only an error a generation or repair call threw |
| Orchestrator.ConnectedErrors | src/logic.ts:122-147 | wired to the service, `getQueries` throws only errors starting with the generation or the repair prefix |
| Orchestrator.AlwaysRejected | src/logic.ts:127-145 | a statement that never passes: three rounds, one generation, three repairs, nothing returned |
| Orchestrator.EmptyRepairRegenerates | src/logic.ts:129-131 | a repair returning no statements makes the next round generate afresh |

## Left out

- `DBState` and `initDatabase` (src/logic.ts:8-27): loading the schema into SQLite, and the unawaited initialisation racing the first query. The engine is a parameter.
- Asynchrony and `console.log` calls: the model is sequential and has no output.
- The OpenAI client, `node-sql-parser` and sql.js are parameters, not models. This covers network failures, parser grammar and SQL semantics.
- Completion.GenerateQueries, Completion.FixQueries: their contracts state only the shape of results and errors. The request each one sends is in its body, built with `Completion.ChatRequest`. Its properties are stated by `Completion.StatementsFrom` and by the contracts of the prompt builders.
- The prompt text does not appear in the statements about requests, which name the prompt builder instead. The repair prompt's listing of the failed statements is stated about the listing's text (`Instructions.ListedVerbatim`), not about the whole prompt.
- Strings are sequences of Unicode scalar values, while JavaScript strings are UTF-16 code units, so lone surrogates cannot be represented and lengths differ for characters outside the Basic Multilingual Plane. This changes no behaviour of the core: `;`, the newline and every character `trim` removes lie in that plane, and the only length test on text is whether it is empty.
- Thrown values that are not `Error` objects (whose `message` is `undefined`) are not modelled; every thrown error carries a message text.
- `JSON.stringify` and JavaScript object details: the serialised text is a parameter; key insertion order, the `__proto__` key and numeric-looking keys of records are not modelled. A record is a map. SQLite numbers are `real`, with no floating-point rounding.
- `Date` in `ChatMessage` is an integer, and the time it holds is not modelled.
- The chat UI, the key-entry form and the rest of the React components.

## Findings

| source | as written | input that shows it | evidently intended | confidence | as-written member | corrected member |
|---|---|---|---|---|---|---|
| src/logic.ts:39 | `(error as any).code = "invalid_api_key"` assigns, and its non-empty value is always truthy, so every probe error is reported as "Invalid API key" | a key whose probe fails with code `rate_limit_exceeded` and payload "Rate limit reached" gives "Invalid API key" | compare with `===`: only the invalid-key code is reported as an invalid key, other errors return their payload | not executed | Completion.IsValidApiKeyAsWritten, Completion.RateLimitedKeyReportedInvalid | Completion.IsValidApiKey |
