# foxcheck core, modelled and verified in Dafny

foxcheck is a fact-checking service. A multi-agent graph takes a statement through these steps:

- a supervisor language model picks a search tool (Wikipedia, arXiv, the web) or the judge;
- the search nodes log what they retrieve;
- the judge asks an adjudicator chain for a verdict;
- a reviewer either sends the work back once for improvement or finishes it.

Around the graph sit:

- a FastAPI back end: the CRUD layer over users, articles and statements; the article and statement routes with their 404/403 guards; the admin update routes; a bearer-token authentication backend; the database URL rewrite;
- a chain that splits a language model's answer into one statement per line;
- two helpers of the admin page's statement editor: the verdict badge, and the parsing and validation of the references field.

Modules (one per source file of the core):

- `Wrappers`: `Option` and `Result`.
- `PyStr`: the Python string built-ins the source relies on: `strip`, `split('\n')`, `'\n'.join`, `split()`, `lower()` and `replace`.
- `FactCheckGraph` (agents/statement_checker.py):
  - the graph state and the partial patches the nodes return, merged as LangGraph merges them (messages appended, other keys overwritten);
  - the nodes, the routing table and the retry policy (two attempts per node);
  - one step of the graph, and a whole run as a function with explicit fuel.
- `FactCheckEngine`: the compiled graph as a class. It holds the state's fields, has a method per engine stage and runs the loop with `while`. Each method is proved equal to the pure semantics.
- `FactCheckProofs`: the lemmas about steps, reachable configurations and whole runs.
- `JudgePrompt` (chains/adjudicator_chain.py and the judge node): formatting the adjudicator's prompt, the judge input as written and a corrected one.
- `Crud` (crud.py, models.py, schemas.py): a `Store` class whose fields are the three tables as maps, plus their id sequences. Every method keeps the store's invariant `Valid()`.
- `Http`: the error responses.
- `ArticlesRouter` (routers/articles.py).
- `AdminRouter` (routers/admin.py): rows as attribute dictionaries, updated in place by a `Table` class.
- `AuthBackend` (auth_backend.py).
- `Database` (database.py).
- `StatementChain` (chains/statement_chain.py).
- `JsonValues`: JSON values and JavaScript truthiness.
- `AdminStatementsPage` (static/js/admin/statements.js).

Things outside the program are parameters of the model:

- the language models, the retrievers and the adjudicator are functions from a global call index and their input to a reply (an answer, a retryable error or a fatal error);
- password hashing, JWT decoding, `json.dumps`, `JSON.parse` and the current time.

## Model

| member | source | states |
|---|---|---|
| FactCheckGraph.Merge | agents/statement_checker.py:35-42 | merging a node's patch appends its messages to the log and overwrites exactly the keys the patch supplies; the statement never changes |
| FactCheckGraph.ToolMessages | agents/statement_checker.py:185 | the research list the supervisor collects holds only tool messages and is no longer than the log |
| FactCheckGraph.Records | agents/statement_checker.py:47-73 | a search tool returns one record per retrieved document, in order, carrying each document's content and metadata |
| FactCheckGraph.Invoke | agents/statement_checker.py:193-198 | running a node under its retry policy spends at least one and at most `max_attempts` (2) attempts of the clock |
| FactCheckProofs.SupervisorRouting | agents/statement_checker.py:201-210 | the supervisor's routing table is defined exactly on the three search tool names and `JudgeStatement`; each search name leads to the node of that tool and only `JudgeStatement` leads to the judge; the fallback `supervisor` decision has no edge |
| FactCheckProofs.FixedEdges | agents/statement_checker.py:211-214 | every search node returns to the supervisor, the judge goes to review, and no node but review can end the run |
| FactCheckProofs.ReviewRouting | agents/statement_checker.py:216-223 | review goes back to the supervisor exactly on `Improve`, ends exactly on `FINISH`, and has no edge for any other decision |
| FactCheckProofs.RetryPolicy | agents/statement_checker.py:193-198 | a second attempt happens exactly when the first failed retryably; the outcome is that of the last attempt; retries are exhausted only when both attempts failed retryably |
| FactCheckProofs.ResearchOutput | agents/statement_checker.py:47-73 | a search node logs exactly one tool message, named after its tool and answering the supervisor's call, with every document in order, and touches no other key |
| FactCheckProofs.ToolMessagesAppend | agents/statement_checker.py:185 | the research view of a concatenated log is the concatenation of the views |
| FactCheckProofs.ToolMessagesFilter | agents/statement_checker.py:185 | a message is in the research view exactly when it is in the log and is a tool message |
| FactCheckProofs.StepPatch | agents/statement_checker.py:193-223 | a successful step ran its node once to a patch, merged that patch, and routed on the merged state |
| FactCheckProofs.StepLog | agents/statement_checker.py:82-187 | each step keeps the log as a prefix and adds one message: the supervisor's decision, the search tool's result or the review note; the judge adds none |
| FactCheckProofs.StepFrame | agents/statement_checker.py:82-187 | only review touches `improved`, and it sets it; only the supervisor touches `research`, setting it to the tool messages of the log; only the judge touches the verdict |
| FactCheckProofs.JudgeFrame | agents/statement_checker.py:82-87 | a successful judge step changes only the verdict, to the adjudicator's answer for the statement and the research, and then goes to review |
| FactCheckProofs.ReviewForcesFinish | agents/statement_checker.py:136-140 | once `improved` is set, review ends the run with `FINISH` whatever the reviewer votes |
| FactCheckProofs.ReviewHonoursFirstVote | agents/statement_checker.py:129-140 | on its first entry review sets `improved`, records the reviewer's vote (`Improve` or `FINISH`) and routes on it |
| FactCheckProofs.StartInv | agents/statement_checker.py:231-243 | the initial state satisfies the run invariant: the log starts with the statement as a human message |
| FactCheckProofs.StepInv | agents/statement_checker.py:144-223 | each step preserves the invariant: a search node is reached only after a decision naming its tool; judge and review only after `JudgeStatement` with research set |
| FactCheckProofs.ReachableInv | agents/statement_checker.py:191-243 | every configuration reachable from the initial state satisfies the invariant |
| FactCheckProofs.ReviewCorrelation | agents/statement_checker.py:130-135 | the review note answers the id of the `JudgeStatement` call, which is still the last tool call in the log |
| FactCheckProofs.JudgeNeedsOnlyItsProvider | agents/statement_checker.py:82-87 | wherever the judge is reachable, it fails only when the adjudicator does |
| FactCheckProofs.StepBudget | agents/statement_checker.py:136-140 | every step that goes on spends the review or judge budget of the node it ran |
| FactCheckProofs.ExecBounds | agents/statement_checker.py:136-140 | from any configuration, review runs at most once more when `improved` is set (twice otherwise), the judge likewise, and the trace only grows |
| FactCheckProofs.ExecLogGrows | agents/statement_checker.py:38 | a finished run keeps the log it started with as a prefix and never changes the statement |
| FactCheckProofs.ExecFinishesAtReview | agents/statement_checker.py:216-223 | a finished run ended on review with `FINISH`, and `improved` is set |
| FactCheckProofs.FactCheckRun | agents/statement_checker.py:231-243 | a whole run from a statement runs judge and review at most twice each; if it finishes, its log starts with the statement, the latch is set, `FINISH` was the last decision and the result is the final verdict; if it aborts, the result is its failure |
| FactCheckEngine.Engine.constructor | agents/statement_checker.py:231-243 | the engine starts in the initial state: a log holding only the statement, no research, no verdict, `improved` false |
| FactCheckEngine.Engine.ApplyPatch | agents/statement_checker.py:35-42 | merging a patch in place leaves exactly the merged state, and the old log remains a prefix |
| FactCheckEngine.Engine.InvokeWithRetry | agents/statement_checker.py:193-198 | the retry loop gives the same outcome and clock as the retry policy, with at most two attempts |
| FactCheckEngine.Engine.StepNode | agents/statement_checker.py:193-223 | running a node, merging its patch and routing in place is exactly one step of the pure semantics |
| FactCheckEngine.Engine.Advance | agents/statement_checker.py:191-223 | one turn of the engine either ends the run with the result of the pure semantics, or continues at the next node with that result unchanged |
| FactCheckEngine.Engine.Run | agents/statement_checker.py:191-225 | the engine loop returns exactly the pure run from the supervisor, and the log only grows |
| FactCheckEngine.MultiAgentFactCheck | agents/statement_checker.py:230-243 | checking a statement on a fresh engine returns exactly the verdict of the pure run, or its failure |
| JudgePrompt.AdjudicatorFor | agents/statement_checker.py:82-87 | the adjudicator chain's reply on a judge input: a prompt that does not format is a non-retryable failure, and otherwise the reply is the model's on the formatted variables |
| JudgePrompt.FormatPrompt | chains/adjudicator_chain.py:41-60 | the prompt formats exactly when all four variables are supplied, binding each to its input; otherwise the error names exactly the missing variables |
| JudgePrompt.AsWrittenPromptFails | agents/statement_checker.py:86 | the judge's input as written lacks `wiki`, `web` and `arxiv`, so formatting fails |
| JudgePrompt.NoRunPastSilentJudge | agents/statement_checker.py:193-223 | if the adjudicator never answers, every run from outside review aborts |
| JudgePrompt.AsWrittenNeverVerdicts | agents/statement_checker.py:86 | with the judge as written, no run of the graph produces a verdict, whatever the models answer and whatever the fuel |
| JudgePrompt.FromTool | chains/adjudicator_chain.py:47-52 | the research slot of a tool holds exactly the research messages of that tool, and nothing else |
| JudgePrompt.FromToolAppend | chains/adjudicator_chain.py:47-52 | the slot of a concatenation of research is the concatenation of the slots, so a slot keeps the order and the repeats of the research |
| JudgePrompt.FromToolSingle | chains/adjudicator_chain.py:47-52 | a single research message lands in a slot exactly when it is a tool message of that slot's tool |
| JudgePrompt.CorrectedPromptFormats | chains/adjudicator_chain.py:41-67 | the corrected judge input always formats, and the adjudicator then returns the model's answer on it |
| JudgePrompt.Searches | chains/adjudicator_chain.py:47-52 | the search results of a research list are tool messages of a search tool |
| JudgePrompt.SlotsPartitionResearch | chains/adjudicator_chain.py:47-52 | the three slots partition the search results: each result lands in exactly one slot, the one of its tool |
| Crud.IdsBetween | crud.py:35-37 | a table scan yields exactly the stored ids in range, in strictly ascending order |
| Crud.Page | crud.py:35-37 | `offset`/`limit` gives the window of rows starting at `skip`, at most `limit` long; a negative offset or limit is an error |
| Crud.Select | crud.py:186-189 | fetching rows by a list of ids yields those rows, in that order |
| Crud.Matching | crud.py:186-189 | a `WHERE` filter keeps exactly the ids whose rows satisfy it, in their order |
| Crud.SetArticleItem | crud.py:145-146 | setting one article attribute never changes the id, the owner or the active flag |
| Crud.DomainOutcome | crud.py:54-60 | an absent or empty domain is not taken; otherwise no match means false, one means true, two or more is `MultipleResultsFound` |
| Crud.Store.constructor | crud.py:14-203 | the empty database satisfies the store invariant, with every id sequence at 1 |
| Crud.Store.CreateUser | crud.py:14-23 | a new user stores the password's hash and gets the next id; an email already used violates the unique index and changes nothing; the id sequence advances either way |
| Crud.Store.GetUser | crud.py:25-26 | the user with that id, or none |
| Crud.Store.GetUsers | crud.py:35-37 | the page of users at `skip`: exactly `limit` of them, or all that remain past `skip` when fewer do, in ascending id order; a negative offset or limit is an error |
| Crud.Store.UpdateUser | crud.py:39-47 | each supplied field is set in turn, the password through its hash; an email clash rolls back and changes nothing |
| Crud.Store.DeleteUser | crud.py:49-51 | the user is gone, unless an article it owns or a statement it wrote still refers to it: then the commit violates that foreign key and nothing changes |
| Crud.Store.CheckDomainExists | crud.py:54-60 | an absent or empty domain is not taken |
| Crud.Store.CreateArticle | crud.py:63-97 | a taken domain is refused with the duplicate-domain message and a domain held by several articles is an error, both with no change; a title, domain or authors longer than its column (models.py:28, 33, 35) fails the insert with the id spent and nothing stored; otherwise the article is stored under the next id with the default links |
| Crud.ColumnsError | models.py:28-35 | no error exactly when the title fits 200 characters, the domain 500 and the authors 1000; otherwise the width of the first column, in table order, that is too long |
| Crud.Store.GetArticle | crud.py:100-110 | the article with that id, or none |
| Crud.Store.GetArticles | crud.py:126-137 | the page of articles at `skip`: exactly `limit` of them, or all that remain past `skip` when fewer do, in ascending id order; a negative offset or limit is an error |
| Crud.Store.UpdateArticle | crud.py:140-156 | each supplied field is set in turn, the links re-encoded, and no other article changes; a value longer than its column fails the commit and nothing changes |
| Crud.Store.DeleteArticle | crud.py:159-161 | the article is gone; its statements stay with no article, and every other statement is unchanged |
| Crud.Detached | crud.py:159-161 | once an article is deleted, no statement refers to it; its statements keep every field but the article id, and all other statements are untouched |
| Crud.Store.CreateStatement | crud.py:165-174 | the new statement is stored under the next id, stamped with the given article and author |
| Crud.Store.GetStatement | crud.py:176-179 | the statement with that id, or none |
| Crud.Store.GetStatements | crud.py:181-184 | the page of statements at `skip`: exactly `limit` of them, or all that remain past `skip` when fewer do, in ascending id order; a negative offset or limit is an error |
| Crud.Store.GetArticleStatements | crud.py:186-189 | exactly the stored statements of the article, in ascending id order |
| Crud.Store.UpdateStatement | crud.py:191-199 | verdict and explanation are overwritten; references are replaced when given and kept when omitted; every other field stays |
| Crud.Store.UpdateStatementAsWritten | crud.py:191-194 | omitted references are `None`, whose assignment to the list relationship raises a `TypeError` and stores nothing; given references are stored with the verdict and the explanation |
| Crud.Store.DeleteStatement | crud.py:201-203 | the statement is gone and nothing else changes |
| Crud.ApplyUserItemsAppend | crud.py:44-45 | the update loop over two batches of fields is the loop over the first, then the second |
| Crud.UpdateUserSetsSuppliedFields | crud.py:39-47 | the update loop replaces each supplied field, the password only by its hash, and keeps the rest |
| Crud.UpdateArticleSetsSuppliedFields | crud.py:140-156 | the update loop replaces each supplied field, the links by their encoding, and keeps the rest |
| Crud.NewArticleDefaults | crud.py:69-80 | a new article is active, unapproved and owned by the caller, with links `"[]"` when none (or an empty list) were given |
| Crud.CheckDomainExistsCounts | crud.py:54-60 | the domain check is false exactly when no article has the domain, true only when exactly one has it, and an error only when several do |
| Crud.DistinctCount | crud.py:35-37 | an ascending id list has as many elements as the set of its ids |
| ArticlesRouter.OwnedArticle | routers/articles.py:50-55 | a missing article is 404; an article of someone else is 403; otherwise the article itself |
| ArticlesRouter.AuthoredStatement | routers/articles.py:108-113 | a missing statement, or one of another article, is 404; a statement of someone else is 403; otherwise the statement itself |
| ArticlesRouter.ReadArticle | routers/articles.py:38-41 | the stored article, or 404 exactly when it is missing |
| ArticlesRouter.UpdateExistingArticle | routers/articles.py:50-55 | 404, then 403, guard the update; past them the supplied fields are set and nothing else changes, or a value too long for its column answers 500 with no change |
| ArticlesRouter.DeleteExistingArticle | routers/articles.py:63-69 | 404, then 403, guard the delete; past them the article is gone and its statements lose their article id |
| ArticlesRouter.AssignAttribute | routers/articles.py:82-87 | assigning an attribute an object does not declare is an uncaught error, answered 500 |
| ArticlesRouter.CreateStatementOn | crud.py:165-174 | creating a statement from an object that lacks `article_id` or `user_id` is a 500 and stores nothing; otherwise the statement is stored |
| ArticlesRouter.CreateArticleStatement | routers/articles.py:79-87 | a missing article is 404; otherwise the statement is stored stamped with the article and the caller |
| ArticlesRouter.CreateArticleStatementAsWritten | routers/articles.py:79-87 | as written, the route answers 404 for a missing article and 500 otherwise, and never stores anything |
| ArticlesRouter.AsWrittenStampFails | crud.py:167-168 | the request body has no `article_id` attribute, so the first stamp in `create_statement` fails |
| ArticlesRouter.ReadArticleStatements | routers/articles.py:94-97 | 404 exactly for a missing article; otherwise exactly its stored statements, as stored, in ascending id order |
| ArticlesRouter.UpdateArticleStatement | routers/articles.py:108-113 | 404, then 403, guard the update; past them the verdict and explanation are set and the references kept |
| ArticlesRouter.UpdateArticleStatementAsWritten | routers/articles.py:108-113 | as written, the route answers 404 or 403 from its guards and 500 past them, and never changes the store |
| ArticlesRouter.DeleteArticleStatement | routers/articles.py:122-128 | 404, then 403, guard the delete; past them the statement is gone |
| ArticlesRouter.NotFoundBeforeForbidden | routers/articles.py:50-55 | a missing article or statement answers 404 whoever asks |
| ArticlesRouter.WrongArticleIsNotFound | routers/articles.py:108-113 | a statement reached through another article's path is 404, even for its author |
| AdminRouter.GetAdminUser | routers/admin.py:15-21 | the caller is returned exactly when they are an admin, else 403 |
| AdminRouter.OverlayFilterAndFrame | routers/admin.py:108-110 | an admin update sets exactly the payload keys the record has, ignores the others and keeps the rest |
| AdminRouter.OverlayIdempotent | routers/admin.py:108-110 | applying the same admin payload twice is the same as applying it once |
| AdminRouter.Table.constructor | routers/admin.py:104-113 | a table holds the given rows, each under the id its `id` attribute holds |
| AdminRouter.Target | routers/admin.py:108-112 | an updated record is committed under the integer its `id` attribute holds when that is its own id; a changed id commits only when it is free, fits a PostgreSQL `integer` and no foreign key of another table holds the old id; otherwise the commit fails |
| AdminRouter.OverlayKeepsKey | routers/admin.py:108-112 | a payload without `id` leaves the record under its own id |
| AdminRouter.Table.Commit | routers/admin.py:112 | the commit moves the record to the id it carries, or fails with a 500 and leaves the table as it was; a record referenced by a foreign key, or moved to an id out of the `integer` range, stays put |
| AdminRouter.AssignAttributes | routers/admin.py:108-110 | the `setattr` loop leaves the record overlaid with the payload |
| AdminRouter.UpdateRecordAdmin | routers/admin.py:104-113 | a non-admin gets 403 and a missing record 404, both with no change; otherwise the record is overlaid with the payload and committed under the id it then carries, or the commit fails with a 500 and no change |
| AdminRouter.UpdateUserAdmin | routers/admin.py:104-113 | the user update of the admin API: 403, 404 `User not found`, or the overlaid user, committed under the id it then carries (its own id when the payload has no `id`), or a 500 when that commit fails |
| AdminRouter.UpdateArticleAdmin | routers/admin.py:132-141 | the article update of the admin API: 403, 404 `Article not found`, or the overlaid article, committed under the id it then carries (its own id when the payload has no `id`), or a 500 when that commit fails |
| AdminRouter.UpdateStatementAdmin | routers/admin.py:160-169 | the statement update of the admin API: 403, 404 `Statement not found`, or the overlaid statement, committed under the id it then carries (its own id when the payload has no `id`), or a 500 when that commit fails |
| AuthBackend.Header | auth_backend.py:11-14 | the header value is found exactly when a header has that name, and it is the value of the first header with that name |
| AuthBackend.Authenticate | auth_backend.py:11-33 | credentials exactly when the header is present, splits into two words, has the `bearer` scheme ignoring case, and carries a token that decodes to a payload with a subject; the user is that subject |
| AuthBackend.SchemeAndSpacing | auth_backend.py:16-18 | extra and trailing whitespace, and the case of the scheme, do not change the outcome |
| AuthBackend.BearerHeader | auth_backend.py:14-27 | the header the front end sends, `Bearer <token>`, authenticates the token's subject |
| AuthBackend.WrongShape | auth_backend.py:16-18 | a header that does not split into exactly two words is anonymous, whatever the token |
| Database.WordRun | database.py:9 | the greedy `\w+` run at the start of the text is the longest prefix of word characters |
| Database.StripSslModeNoQuestion | database.py:9 | text without `?` passes through the `sslmode` removal unchanged |
| Database.StripSslModeRemoves | database.py:9 | a parameter with a value is removed together with its whole value, and only that |
| Database.StripSslModeKeepsBare | database.py:9 | a bare `?sslmode=` with no word character after it is left in place |
| Database.StripSslModeAbsent | database.py:9 | text without the `?sslmode=` parameter is unchanged |
| Database.DatabaseUrlNoop | database.py:8-9 | a URL with neither the synchronous scheme nor the `sslmode` parameter is unchanged |
| Database.HostedUrl | database.py:8-9 | a hosted `postgresql://…?sslmode=<mode>` URL becomes `postgresql+asyncpg://…` without the parameter |
| StatementChain.Statements | chains/statement_chain.py:40 | one statement per line of the answer, each the line stripped, none holding a newline |
| StatementChain.LinesInOrder | chains/statement_chain.py:40 | the lines are the answer's pieces between newlines, in order, and nothing is lost |
| StatementChain.BlankLineKept | chains/statement_chain.py:40 | a blank line yields an empty statement; it is not dropped |
| StatementChain.SingleLine | chains/statement_chain.py:40 | an answer without a newline yields exactly one statement, the stripped answer |
| StatementChain.StatementsStripped | chains/statement_chain.py:40 | every statement is already stripped |
| StatementChain.RoundTrip | chains/statement_chain.py:40 | joining stripped, non-empty, newline-free statements with newlines and splitting again gives them back |
| PyStr.TrimLeft | chains/statement_chain.py:40 | leading whitespace removed: exactly whitespace is dropped, and the result starts with a non-space |
| PyStr.TrimRight | chains/statement_chain.py:40 | trailing whitespace removed: exactly whitespace is dropped, and the result ends with a non-space |
| PyStr.Strip | chains/statement_chain.py:40 | the result is an infix of the text, everything cut away is whitespace, and it neither starts nor ends with whitespace |
| PyStr.StripKeeps | chains/statement_chain.py:40 | stripping introduces no character that was not there |
| PyStr.StripBlank | chains/statement_chain.py:40 | an all-whitespace line strips to empty |
| PyStr.StripIdempotent | chains/statement_chain.py:40 | stripping twice is stripping once |
| PyStr.SplitOn | chains/statement_chain.py:40 | splitting on a separator gives one more piece than separators, none holding the separator |
| PyStr.JoinSplitOn | chains/statement_chain.py:40 | joining the pieces with the separator gives the text back |
| PyStr.SplitOnJoin | chains/statement_chain.py:40 | splitting a join of separator-free pieces gives the pieces back |
| PyStr.Words | auth_backend.py:16 | `split()` yields non-empty words without whitespace |
| PyStr.WordsCoverNonSpace | auth_backend.py:16 | the words together hold exactly the non-whitespace characters of the text, in order |
| PyStr.WordsOfWordThen | auth_backend.py:16 | a word followed by whitespace is the first word of the split |
| PyStr.WordsOfSpaces | auth_backend.py:16 | leading whitespace does not change the split |
| PyStr.WordsOfOneWord | auth_backend.py:16 | a single word splits to itself |
| PyStr.AsciiLower | auth_backend.py:17 | lower-casing maps each character and keeps the length |
| PyStr.ReplaceSplice | database.py:8 | an occurrence of the pattern with no earlier one overlapping it becomes the replacement, the text before it is kept and the scan goes on after it |
| PyStr.ReplaceAbsent | database.py:8 | replacing a pattern that does not occur leaves the text unchanged |
| JsonValues.Property | static/js/admin/statements.js:164-170 | a property read is defined exactly on objects that have the key |
| AdminStatementsPage.BadgeClass | static/js/admin/statements.js:70-78 | the badge is success exactly for `True`, danger exactly for `False`, warning exactly for the two `Mostly` labels, and secondary for anything else |
| AdminStatementsPage.BadgeOfLabel | static/js/admin/statements.js:70-78 | every verdict label of the adjudicator gets its badge (`Uncertain` the secondary one), and a missing verdict gets the secondary one |
| AdminStatementsPage.Rejection | static/js/admin/statements.js:164-166 | a `null` reference fails on the property read, and any other rejected reference fails the title and source check |
| AdminStatementsPage.Normalised | static/js/admin/statements.js:167-171 | an accepted reference becomes an object with exactly title, source and summary, a truthy summary kept and any falsy or missing one replaced by the empty string |
| AdminStatementsPage.NormaliseAll | static/js/admin/statements.js:163-172 | the references are accepted exactly when every one has a title and a source, and are then normalised in order; otherwise the first rejected one decides the error |
| AdminStatementsPage.References | static/js/admin/statements.js:154-172 | an empty field gives no references, broken JSON the parser's error, a non-array its own error, and an array the normalised references |
| AdminStatementsPage.ErrorText | static/js/admin/statements.js:173-178 | the message shown is `Invalid JSON format in references field: ` followed by the error's own message: the parser's text, the not-an-array text, the browser's `TypeError` text, or the missing title or source text |
| AdminStatementsPage.OrNull | static/js/admin/statements.js:181-186 | an empty form field is sent as `null`, any other as its text |
| AdminStatementsPage.SaveStatementChanges | static/js/admin/statements.js:154-186 | the request is built exactly when the references are valid, with empty fields as `null`; otherwise the error message is shown |
| AdminStatementsPage.EmptyReferences | static/js/admin/statements.js:157 | an empty references field always saves, with no references |
| AdminStatementsPage.OneBadReferenceBlocksSave | static/js/admin/statements.js:163-166 | one reference lacking a title or a source blocks the whole save |
| AdminStatementsPage.NormaliseIdempotent | static/js/admin/statements.js:163-172 | normalising already normalised references changes nothing |

## Left out

- FactCheckGraph: the internals of LangGraph's `ToolNode` are left out. A search node is modelled as running the first tool call of the last logged message against its retriever.
- FactCheckGraph.RunNode: `ToolNode` (agents/statement_checker.py:53, 63, 73) runs every tool call of the last message, not only the first. With its error handling on, a retriever exception or a call without a `query` argument becomes an error tool message and the node succeeds. The model instead fails the attempt (retried when transient) and, once the attempts are spent, aborts the run. Which exceptions `ToolNode` turns into messages depends on the LangGraph version, so the model does not pick one.
- FactCheckProofs.StepLog: a search step is stated to log exactly one message. A decision carrying several tool calls, which `ToolNode` would answer with one message each, is not modelled.
- FactCheckProofs.ResearchOutput: states the one tool message of a successful retrieval. Error tool messages produced by `ToolNode` on a failing retriever or a malformed call are not modelled.
- FactCheckGraph: `add_messages` replaces a message that has the same id as a new one. This is not modelled: every patch's messages are appended.
- FactCheckGraph: the `current_date` key of the graph state is never read by any node, so the state does not carry it.
- FactCheckGraph: the prompts and the language models are oracle parameters. So are the Wikipedia, arXiv and Tavily retrievers: the model states what a node does with each answer, not what the answer says.
- FactCheckGraph.Exec: LangGraph's recursion limit is modelled as explicit fuel. A run that uses up its fuel is `Aborted(OutOfFuel)`.
- FactCheckGraph: which exceptions the retry policy treats as retryable is an oracle choice (transient or fatal replies).
- JudgePrompt.AsWrittenNeverVerdicts: holds for any adjudicator that never answers, whether its failures are retryable or not. `JudgePrompt.AdjudicatorFor` classifies the prompt's `KeyError` as non-retryable, as LangGraph's default retry filter does for a `LookupError`, but the conclusion does not depend on that.
- Async execution, the event loop, logging and `print` are left out.
- Crud: password hashing, `json.dumps`, and the clock that stamps `created_at`/`updated_at` are parameters.
- Crud: SQL queries without `ORDER BY` are modelled as returning rows in ascending id order.
- Crud: the foreign keys of an inserted row are not checked. `CreateArticle` and `CreateStatement` store a row whatever its `user_id` or `article_id` refers to. The routes call them only with an existing article and the authenticated user. The NOT NULL check on explicit nulls is not modelled either.
- Crud.Store.DeleteArticle: models.py also gives an article a one-to-many relationship to the `Reference` table, whose rows the ORM detaches in the same way. The model keeps references inside their statements and has no `Reference` table, so this is not modelled.
- Crud.Store.DeleteUser: when both an article and a statement still refer to the user, which constraint the database reports first is not pinned by the source. The model reports the article's.
- Crud: the model is of the schema the code evidently expects, which models.py and schemas.py do not fully provide. crud.py:8 imports `Reference` from schemas.py, which defines only `ReferenceBase`, `ReferenceCreate` and `ReferenceRead`, so the import fails as written. crud.py:104, 117 and 130 load `Article.user`, and routers/admin.py:120 does too, but models.py declares no `user` relationship on `Article`. `User.is_admin` (routers/admin.py:16) and `Article.is_active` (crud.py:79) are read but not declared. The records carry both fields, and the missing import and relationship are taken to exist.
- Crud.Store.CreateArticle: models.py declares no unique constraint on `domain`, so the `IntegrityError` branch of `create_article` (crud.py:93-97) has no cause in the model and is left out. The same goes for `update_article` (crud.py:152-156).
- Crud.ColumnsError: when several values are too long, the model reports the first column in table order, and `Crud.Store.CreateArticle` and `Crud.Store.UpdateArticle` return that error. The model also has a failed insert spend its id, because PostgreSQL computes the id default before it fits the values to their columns. Neither choice is pinned by the source.
- Crud: `get_user_by_email` and `get_article_by_url` are not routed to by the core routes and are not modelled.
- Crud.Store.UpdateStatement: the fields of the references are not validated.
- AdminRouter: `hasattr` on a row is modelled as the row's attribute dictionary having the key, and the rows hold the column attributes only.
- AdminRouter.Target: of the commit errors, only those of a changed `id` are modelled: a value that is not an integer, an id another row holds, an id outside the `integer` range, or an old id that a foreign key still holds. Left out are a value of the wrong type for any other column, a string longer than its `VARCHAR` column, a `null` for a NOT NULL column, and a `user_id` or `article_id` that refers to no row. So are the relationship attributes that `hasattr` also accepts: `statements` and `references` on an article, `article` and `references` on a statement. Assigning JSON values to them fails inside SQLAlchemy, and assigning `null` or `[]` detaches rows. The methods `set_links` and `get_links`, which a payload could overwrite on the instance, are left out as well.
- AuthBackend: JWT signature checking and decoding is a parameter `decode`. `jose` raising on a bad token is modelled as `None`.
- PyStr.AsciiLower: `lower()` is modelled on ASCII only. Unicode case mapping is not.
- Database: `\w` is modelled as the ASCII word characters. Unicode letters and digits are not.
- Database: the engine and session factory (database.py:11 onward) are I/O and are left out.
- JsonValues: JSON numbers are integers; floating point is not modelled.
- AdminStatementsPage: `JSON.parse` is a parameter. So is the text of the `TypeError` the browser raises when a property of `null` is read.
- AdminStatementsPage: DOM reads and writes, `fetch` and the save button state are left out.

## Findings

| source | as written | input that shows it | evidently intended | confidence | as-written member | corrected member |
|---|---|---|---|---|---|---|
| routers/articles.py:82-87 | the route passes the pydantic request body `StatementCreate` to `crud.create_statement`, which assigns `article_id` and `user_id` on it (crud.py:167-168); pydantic refuses attributes the model does not declare, so the call raises and the route answers 500 | any POST to `/articles/{id}/statements` for an existing article, e.g. body `{"content": "x"}` | the statement is stored stamped with the article id and the caller's id | high, not executed | ArticlesRouter.CreateArticleStatementAsWritten | ArticlesRouter.CreateArticleStatement |
| crud.py:191-194 | `update_statement` defaults `references` to `None` and assigns it to the list relationship `Statement.references` (models.py:24). SQLAlchemy refuses a non-list value with a `TypeError` before the commit. `update_article_statement` never passes references (routers/articles.py:113), so it answers 500 past its guards | the author of statement 1 of article 1 updating it: `PUT /articles/1/statements/1?verdict=True&explanation=x` | omitted references leave the statement's references as they are, as the commented-out check at crud.py:195-196 suggests | medium, not executed | ArticlesRouter.UpdateArticleStatementAsWritten | ArticlesRouter.UpdateArticleStatement |
| agents/statement_checker.py:86 | the judge invokes the adjudicator chain with `{'statement', 'research'}`, but its prompt template (chains/adjudicator_chain.py:41-60) needs `statement`, `wiki`, `web` and `arxiv`; formatting raises `KeyError` on every attempt, so no run reaches a verdict | any statement for which the supervisor calls `JudgeStatement` | the judge's input and the template agree. Either the research is split into the three tool slots the template names, which is the fix modelled, or the template takes the one `research` variable that the judge and chains/fact_check_chain.py:33-37, 59-63 both pass | high, not executed | JudgePrompt.AsWrittenNeverVerdicts | JudgePrompt.CorrectedPromptFormats |
