# Supabase MCP server: mocked management API and key–value parser, in Dafny

The repository is an MCP server that forwards tool calls to the Supabase
management API. Its tests run against a mocked API (`test/mocks.ts`), and
that mock is the only stateful logic in the repository. The mock keeps two
registries: projects by id and branches by id. Each project has a migration
ledger (`{version, name, query}` records) and a PGlite database. On top of
that state the mock implements these operations:

- ad hoc SQL;
- applying and listing migrations;
- pausing and restoring projects;
- creating branches, including the default branch created on the first request;
- listing, deleting, merging, resetting and rebasing branches.

The model also covers `parseKeyValueList` in `src/util.ts`, a small parser
for `key=value` lines.

Modules:

- `Options.dfy`: `Option`.
- `Ledger.dfy`: migrations and JavaScript string order on versions. It also
  holds the reset filter (`TruncateTo`), the head version (`LastVersion`) and
  the `{version, name}` projection (`Summaries`).
- `Executor.dfy`: the database and the SQL oracle.
  - A database is modelled as the sequence of statements that succeeded on
    it since it was created.
  - `db.exec` is an opaque function `Executor` that returns rows, an empty
    result list (the source's `!results`) or a thrown error.
  - `ReplayFrom` specifies `applyMigrations`; `Replay` is its loop.
- `MockApi.dfy`: the class `ManagementApi`. It holds the project map, the
  branch map, the order in which branches were registered (the iteration
  order that listing uses), and the background callbacks still pending.
  - Each HTTP handler is one method.
  - The `setTimeout` callbacks are separate methods (`PromoteProject`,
    `CompleteBranchReplay`). They may run only while pending.
  - Fresh ids (`nanoid`) and clock readings (the formatted migration
    version) are parameters.
- `KeyValue.dfy`: `parseKeyValueList` as a pipeline of pure functions. Its
  contract follows from lemmas about each stage.

The class keeps these invariants:

- `Valid`: every record is stored under its own id; a branch is a default
  branch exactly when its database is its parent's; the branch order lists
  each branch id once.
- `DefaultsHold`: every parent with branches has exactly one default branch.
- `LedgersWellFormed`: every ledger has 14-digit versions in strictly
  increasing order. `ApplyMigration` preserves it only when the caller's
  version is a timestamp that follows the tail. This is because the source's
  clock has one-second resolution.

Some behaviour of the mock is easy to misread; the model follows the code:

- A branch's `project_ref` need not resolve. Deleting a branch destroys its
  project. A default branch created for that project (by branching off it)
  is left pointing at the deleted project. `DeleteBranch` says exactly what
  is removed, so the model makes no global "references resolve" claim.
- Merge does not update any branch status.
- The default branch lives in the parent project itself: its `project_ref`
  is the parent's id (test/mocks.ts:305-310). Resetting or rebasing it
  therefore resets the parent's own database and replays the parent's
  ledger, which discards any ad hoc SQL run on that project. For any other
  branch the parent is untouched.
- Reset truncates only when `migration_version` is truthy, meaning present
  and non-empty. The filter keeps versions `v` with `v <= target` in
  JavaScript string order.

## Model

| member | source | states |
|---|---|---|
| Ledger.Before | test/mocks.ts:458-460 | JavaScript's `<` on strings: character by character, a proper prefix first; its order laws are the next four rows |
| Ledger.AtMost | test/mocks.ts:459 | JavaScript's `<=` on strings, defined as "not `b < a`"; `AtMostIsBeforeOrEqual` ties it to equality and `<` |
| Ledger.BeforeIrreflexive | test/mocks.ts:458-460 | no version sorts before itself in the string order the reset filter uses |
| Ledger.BeforeTransitive | test/mocks.ts:458-460 | the string order is transitive |
| Ledger.BeforeTotal | test/mocks.ts:458-460 | any two distinct versions are comparable |
| Ledger.BeforeAsymmetric | test/mocks.ts:458-460 | the string order is asymmetric |
| Ledger.AtMostIsBeforeOrEqual | test/mocks.ts:459 | `a <= b` holds exactly when the strings are equal or `a` sorts first |
| Ledger.VersionAfterZero | test/mocks.ts:256 | every 14-digit timestamp version sorts after `"0"`, so `"0"` keeps none of them |
| Ledger.AppendKeepsOrder | test/mocks.ts:255-259 | appending a migration whose version follows the tail keeps the ledger strictly ordered |
| Ledger.TruncateTo | test/mocks.ts:456-461 | the kept migrations are exactly those of the ledger whose version is `<= target`, in both directions |
| Ledger.TruncateConcat | test/mocks.ts:456-461 | the filter decides migration by migration: truncating a concatenation is concatenating the truncations, so the kept migrations stay in ledger order |
| Ledger.TruncateIsPrefix | test/mocks.ts:456-461 | on an ordered ledger the kept migrations are a prefix in original order, and every dropped one sorts after the target |
| Ledger.TruncateKeepsOrder | test/mocks.ts:456-461 | truncating an ordered ledger leaves it ordered |
| Ledger.TruncateToZeroEmpties | test/mocks.ts:456-461 | a reset to `"0"` empties a ledger of timestamp versions |
| Ledger.TruncateToHeadKeepsAll | test/mocks.ts:456-461 | a reset to the head version keeps the whole ordered ledger |
| Ledger.AppendKeepsWellFormed | test/mocks.ts:255-259 | appending a timestamp that follows the tail keeps the ledger well formed |
| Ledger.TruncateKeepsWellFormed | test/mocks.ts:456-461 | truncation keeps the ledger well formed |
| Ledger.LastVersion | test/mocks.ts:426 | `migrations.at(-1)?.version` is absent exactly for the empty ledger, and is a version of the ledger otherwise |
| Ledger.LastVersionIsGreatest | test/mocks.ts:426 | on an ordered ledger the head version is at least every member's version |
| Ledger.Summaries | test/mocks.ts:219-223 | the projection has the ledger's length and the `{version, name}` of each migration at the same index |
| Executor.Queries | test/mocks.ts:660-661 | one statement per migration: the statement at each index is the query of the migration at that index |
| Executor.QueriesConcat | test/mocks.ts:660-661 | the statements of two runs of migrations are those of the first followed by those of the second |
| Executor.ReplayFrom | test/mocks.ts:659-666 | a failed replay names a position of the ledger; the replay only appends to the database it started from, at most one statement per migration |
| Executor.QueriesShift | test/mocks.ts:660-665 | running one statement then the rest equals running the whole slice |
| Executor.StepShift | test/mocks.ts:660-665 | a step's success does not depend on whether the replay is seen from one position or the next |
| Executor.ReplayCompleted | test/mocks.ts:659-666 | a completed replay has run every statement in order, each succeeding, and the database holds them all |
| Executor.ReplayFailed | test/mocks.ts:659-666 | a failed replay stops at the first failing statement; the ones before it stay applied, and none after it ran |
| Executor.ReplayCompletesIff | test/mocks.ts:659-666 | a replay completes exactly when every statement succeeds on the database its predecessors built |
| Executor.FreshReplayMatchesLedger | test/mocks.ts:659-674 | after a reset and a successful replay the database holds exactly the ledger's statements, so earlier ad hoc SQL is gone |
| Executor.Replay | test/mocks.ts:659-666 | the `for` loop of `applyMigrations` computes `ReplayFrom` from the start |
| MockApi.UnknownParent | test/mocks.ts:560-562 | the error `createBranch` throws for an unregistered parent; the `CreateBranch` row states when it is thrown |
| MockApi.NewProject | test/mocks.ts:640-657 | the record `new MockProject` builds; the `CreateProject` row states its fields |
| MockApi.NewBranch | test/mocks.ts:715-730 | the record `new MockBranch` builds; the `CreateBranch` and `PostBranch` rows state its fields |
| MockApi.BranchesOf | test/mocks.ts:298-300 | the branches of `parent`, filtered out of the registry in its iteration order; `BranchesOfSpec` states its length bound and contents, `BranchesOfAppend` how registration extends it |
| MockApi.BranchesOfSpec | test/mocks.ts:298-300 | the filtered listing holds only registered branches of the parent, and every registered branch of that parent |
| MockApi.BranchesOfNone | test/mocks.ts:330-338 | a parent with no registered branch has an empty listing |
| MockApi.BranchesOfAppend | test/mocks.ts:577-578 | registering a branch adds it at the end of its parent's listing and changes no other listing |
| MockApi.Without | test/mocks.ts:378 | deleting a key keeps every other key of the iteration order, and no key repeats |
| MockApi.WithoutConcat | test/mocks.ts:378 | removal works key by key, so the other keys keep their iteration order |
| MockApi.ResetLedger | test/mocks.ts:456-461 | the ledger `reset` replays is no longer than the stored one, holds only its migrations, and is well formed when the stored one is |
| MockApi.StoreProjectKeepsInvariants | test/mocks.ts:545 | storing a project under its own id keeps projects keyed and ledgers well formed |
| MockApi.SetStatusKeepsInvariants | test/mocks.ts:467-469 | writing a branch status keeps the branch invariants |
| MockApi.AddBranchKeepsInvariants | test/mocks.ts:312 | registering a branch keeps the branch invariants, with one default branch per parent |
| MockApi.RemoveBranchKeepsInvariants | test/mocks.ts:378 | removing a non-default branch keeps the invariants |
| MockApi.ManagementApi.constructor | test/mocks.ts:34-35 | both registries start empty |
| MockApi.ManagementApi.CreateProject | test/mocks.ts:542-553 | the project is registered with status `UNKNOWN`, an empty ledger and an empty database, and its promotion is scheduled |
| MockApi.ManagementApi.PromoteProject | test/mocks.ts:548-550 | the pending callback sets the project `ACTIVE_HEALTHY`; nothing else changes |
| MockApi.ManagementApi.SetProjectStatus | test/mocks.ts:119-150 | an unknown project is 404; otherwise only its status becomes `INACTIVE` (pause) or `ACTIVE_HEALTHY` (restore) |
| MockApi.ManagementApi.ExecuteSql | test/mocks.ts:182-205 | an unknown project is 404; the outcome of `exec` decides between rows, 500 and a thrown error; no ledger changes |
| MockApi.ManagementApi.ListMigrations | test/mocks.ts:210-228 | 404 exactly for an unknown project; otherwise the ledger in stored order as `{version, name}` pairs |
| MockApi.ManagementApi.ApplyMigration | test/mocks.ts:234-263 | only on rows is exactly one `{version, name, query}` appended at the tail; on failure the ledger and database are unchanged and the answer is 500 or the thrown error |
| MockApi.ManagementApi.ResetDb | test/mocks.ts:668-674 | the project's database becomes empty; nothing else changes |
| MockApi.ManagementApi.ApplyMigrations | test/mocks.ts:659-666 | the project's database becomes the replay's result; the ledger is not rolled back |
| MockApi.ManagementApi.Reload | test/mocks.ts:415-418 | the ledger is swapped in, the database reset and the ledger replayed from empty; no other project changes |
| MockApi.ManagementApi.CreateBranch | test/mocks.ts:555-594 | an unknown parent throws; otherwise a child project named `<parent> - <branch>` with the parent's region, organization and a copy of its ledger is added, plus a non-default `CREATING_PROJECT` branch at the end of the parent's listing; the parent is untouched |
| MockApi.ManagementApi.PostBranch | test/mocks.ts:286-322 | an unknown project is 404; on the first request a default `MIGRATIONS_PASSED` branch on the project itself precedes the new branch in the listing; otherwise only the new branch is added |
| MockApi.ManagementApi.AddDefaultBranch | test/mocks.ts:303-313 | the default branch is registered and is the parent's only listed branch |
| MockApi.ManagementApi.ListBranches | test/mocks.ts:327-343 | 422 exactly when the project has no branch; otherwise its branches in registration order, and every branch of that parent is present |
| MockApi.ManagementApi.CompleteBranchReplay | test/mocks.ts:583-591 | the pending callback replays the branch project's ledger on its current database and sets `MIGRATIONS_PASSED` or `MIGRATIONS_FAILED` by the outcome |
| MockApi.ManagementApi.DeleteBranch | test/mocks.ts:348-382 | 404 for an unknown branch and 422 for a default one, with nothing changed; otherwise exactly the branch and its own project go, and the parent project stays as it was |
| MockApi.ManagementApi.MergeBranch | test/mocks.ts:387-430 | the parent's ledger becomes the branch's, its database the replay of it from empty; the answer is the head version, or 500 with the swapped ledger kept |
| MockApi.ManagementApi.ResetBranch | test/mocks.ts:435-480 | with a truthy version the branch project's ledger is truncated to it, otherwise unchanged; its database is the replay from empty; the status records the outcome; failure is 500; for a non-default branch the parent project is unchanged |
| MockApi.ManagementApi.RebaseBranch | test/mocks.ts:485-530 | the branch project's ledger becomes the parent's and its database the replay of it from empty; the status records the outcome; failure is 500; for a non-default branch the parent is unchanged, and for the default branch the parent keeps its ledger and gets that replay as its database |
| KeyValue.SplitLines | src/util.ts:35 | `split('\n')` always yields at least one piece |
| KeyValue.SplitLinesHaveNoNewline | src/util.ts:35 | no piece of `split('\n')` contains a newline |
| KeyValue.JoinSplitLines | src/util.ts:35 | joining the pieces with newlines gives back the text |
| KeyValue.SplitLinesOfOneLine | src/util.ts:35 | a text without newlines is a single piece |
| KeyValue.SplitLinesConcat | src/util.ts:35 | the pieces of `a + "\n" + b` are those of `a` followed by those of `b` |
| KeyValue.SplitJoinLines | src/util.ts:35 | splitting the join of newline-free pieces gives back the pieces |
| KeyValue.IndexOf | src/util.ts:36 | the position of the first occurrence, or the length when there is none |
| KeyValue.MatchRest | src/util.ts:36 | the capture `(.*)` is the longest prefix without a line terminator |
| KeyValue.SplitEntry | src/util.ts:36-38 | the key is a prefix of the line without `=`, followed in the line by `=` unless it is the whole line; the value is `''` without an `=`, and otherwise a prefix, free of line terminators, of what follows that `=` |
| KeyValue.SplitAtFirstEquals | src/util.ts:36 | a line is split at its first `=`; later `=` characters stay in the value |
| KeyValue.SplitWithoutEquals | src/util.ts:36-38 | a line without `=` is a key with value `''` |
| KeyValue.MatchRestOfCleanValue | src/util.ts:36 | a value free of line terminators is captured whole |
| KeyValue.Entries | src/util.ts:35-38 | at most one entry per line |
| KeyValue.EntriesAreClean | src/util.ts:37 | every kept entry has a non-empty key without `=` that comes from one line, and a value without line terminators |
| KeyValue.EntriesKeys | src/util.ts:35-37 | an entry carries a key exactly when some line splits to that key and the key is non-empty |
| KeyValue.EntriesConcat | src/util.ts:35-38 | the entries of two runs of lines are concatenated |
| KeyValue.FromEntries | src/util.ts:33 | `Object.fromEntries`, storing entries in order; the next three rows state its keys and values |
| KeyValue.FromEntriesKeys | src/util.ts:33 | a key is in the object exactly when some entry carries it |
| KeyValue.FromEntriesLastWins | src/util.ts:33 | the stored value is that of the last entry with that key |
| KeyValue.FromEntriesConcat | src/util.ts:33 | the object of two runs of entries is the first overridden by the second |
| KeyValue.ParseKeyValueList | src/util.ts:32-40 | every key is non-empty and holds neither `=` nor a newline; every value is free of line terminators |
| KeyValue.ParseKeys | src/util.ts:32-40 | a key is in the result exactly when it is non-empty and some line of the input splits to it |
| KeyValue.ParseLastLineWins | src/util.ts:32-40 | a key's value is that of the last line of the input splitting to that key |
| KeyValue.ParseConcat | src/util.ts:32-40 | parsing `a + "\n" + b` gives the parse of `a` overridden by that of `b` |
| KeyValue.ParseOneLine | src/util.ts:32-40 | a single line parses to its entry, or to nothing when its key is empty |
| KeyValue.ParseEmpty | src/util.ts:32-40 | the empty string parses to `{}` |
| KeyValue.ParseOnlyNewlines | src/util.ts:32-40 | a string of newlines only parses to `{}` |
| KeyValue.ParseKeyLine | src/util.ts:36-38 | `key=value` gives `key` the captured value |
| KeyValue.ParseEmptyValue | src/util.ts:38 | `key=` gives `key` the value `''` |
| KeyValue.ParseLineWithoutEquals | src/util.ts:36-38 | a line without `=` maps to `''` |
| KeyValue.ParseEmptyKey | src/util.ts:37 | a line starting with `=` contributes nothing |
| KeyValue.ParseDuplicateKey | src/util.ts:33 | when a key repeats, the later line's value wins |
| KeyValue.ParseTwoLines | src/util.test.ts:5-21 | two clean lines with different keys parse to both pairs |
| KeyValue.ParseSimpleExample | src/util.test.ts:5-9 | `'key1=value1\nkey2=value2'` parses to `{ key1: 'value1', key2: 'value2' }` |
| KeyValue.ParseEmptyValueExample | src/util.test.ts:11-15 | `'key1=\nkey2=value2'` parses to `{ key1: '', key2: 'value2' }` |
| KeyValue.ParseEqualsInValueExample | src/util.test.ts:17-21 | `'key1=value=with=equals\nkey2=simple'` parses to `{ key1: 'value=with=equals', key2: 'simple' }` |
| KeyValue.ParseNewlinesExample | src/util.test.ts:29-33 | `'\n\n\n'` parses to `{}` |
| KeyValue.ParseRenderedLine | src/util.ts:28-30 | a clean `key=value` line parses back to that pair |
| KeyValue.ParseRender | src/util.ts:28-30 | parsing clean rendered entries gives `Object.fromEntries` of them |
| KeyValue.EntriesOf | src/util.ts:28-30 | an enumeration of a dictionary's pairs, one per key |
| KeyValue.FromEntriesOf | src/util.ts:33 | the enumeration of a dictionary rebuilds it |
| KeyValue.ParseRenderedMap | src/util.ts:28-30 | a dictionary with clean keys and values parses back from its `key=value` lines |

## Left out

- Transport and wiring are not modelled: `src/server.ts`, `src/sse.ts`,
  `src/stdio.ts` and the build and test configuration. The server forwards
  to an HTTP client whose source is not part of this model.
- These handlers answer constants or only frame the HTTP exchange, so they
  are not modelled:
  - authentication, user-agent and catch-all;
  - the trace URL, organizations and API keys.
- The logs handler answers an empty list, or 404 for an unknown project. It
  changes no state, so it is not modelled.
- `GET /v1/projects` and `GET /v1/projects/:projectId` are read-only views
  of the project registry: the stored records' `details`, or a 404 for an
  unknown id. They change no state, and the model's project records already
  hold what they report, so they are left out of the modelled operations.
- SQL semantics: `db.exec` is an opaque oracle.
  - A statement that yields a result extends the database by itself.
  - An empty result list or a thrown error leaves the database as it was.
  - This is a modelling choice: PGlite's effects on failure are not modelled.
- Clock, ids and timestamps: `nanoid`, `new Date()`, `created_at` and the
  `database` host record are left out. Migration versions and ids are
  parameters; fresh ids are preconditions.
- Request bodies are taken as already parsed. The zod schemas of
  `POST /v1/projects` and the JSON decoding are not modelled.
- Response shapes: failures carry the status and message. The pause and
  restore 404s use the key `error` instead of `message`; that difference is
  not recorded.
- `MockProject.destroy` closes the database handle. In the model the
  project record is simply dropped.
- Concurrency: handlers run to completion one at a time. `await` points
  inside a handler are not interleaved with other requests.
- The callbacks hold the objects they captured. After a deletion, the real
  callback does its work on a detached object that nothing can observe
  again. The model does nothing in that case. The mock's error log
  (`console.error` when the branch replay fails) is not modelled.
- `MockApi.ManagementApi.CreateBranch` stores the child project once, with
  its copied ledger already in place. The source stores the project and
  then assigns the ledger, with nothing running in between.
- `Ledger.Before` compares strings by code point. JavaScript compares UTF-16
  code units, which differs only for characters outside the Basic
  Multilingual Plane; timestamp versions are digits.
- `KeyValue.ParseKeyValueList`: JavaScript object key order and prototype
  details of `Object.fromEntries` are not modelled; the result is a plain
  map.
- The Cloudflare trace unit test (`src/util.test.ts:35-46`) is not stated
  on its literal. Its five lines are clean and have distinct keys, so it is
  an instance of `ParseRender`; the other unit tests each have a lemma.
- Type-level helpers in `src/util.ts` (`ValueOf`, `UnionToTuple`, …) have no
  run-time behaviour.
