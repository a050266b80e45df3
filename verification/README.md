# Verified model of the Crosswork MCP server's decision logic

A Dafny model of the parts of this repository whose behaviour is hard to read off one function: the
constant folder behind the API coverage report, the single-sign-on session shared by concurrent
requests, the RBAC role generator and the permission check, path routing, tool gating, the retry
loop, and the smaller algorithms (JSON truncation, key renaming, paging, the probe cache, waiting for
a scheduler run).  `dafny verify dfyconfig.toml` checks everything.

How it is laid out, hardest part first:

- **Constant folder** (`scripts/api_coverage.py`).  `PySyntax` is the Python fragment the folder
  reads, `PySemantics` what programs of that fragment do: statements are executed over a store of
  locals, all non-determinism (branches, loops, exceptions, calls out of the package) being resolved
  by a trace.  `Provenance` shows that whatever an execution computes can be derived
  flow-insensitively.  `Folder` is the folder as a function on (expression, environment, memo);
  its termination measure is (module constants not yet memoised, 41 - depth, ...).  `Analyzer` is
  the folder as it runs, an object whose memo is filled in place.  `FolderSound` and `FolderTheorems`
  prove that folding covers every execution: a scope lists what the folded expression rests on
  (constants, helpers, dictionary entries, locals), and only that must be foldable.  `FolderDerives`
  says what each construct can take in terms of its parts, and `FolderExact` proves that text (literals,
  constants, dictionary entries, locals, parameters bound to one string, helper calls with positional,
  keyword and defaulted arguments and functions passed by reference) folds to exactly the strings it can
  take.  `FolderForms` covers format and strip calls, names with several definitions and the limits,
  `FolderLimits` has a failing program for each hypothesis of soundness, `FolderExample` programs that
  meet the hypotheses.  `Templates` says which strings a template with `{}` denotes.
- **Session** (`src/cnc_mcp/auth.py`, `src/cnc_mcp/client.py`).  `CasLogin` has the two-leg login and
  the strategy object with its methods; `Session` the transition system of concurrent requests whose
  steps are the stretches of code between awaits (any answer, lost answers, cancellation and
  server-side expiry included); `SessionSafety` what all runs keep, `SessionCalls` what ends each call,
  which token it sends and how often it re-authenticates.
- **RBAC** (`scripts/rbac_map.py`, `src/cnc_mcp/tools/admin.py`).  `RoleCheck` is the permission
  check, `RoleCompiler` the path from requirements to ticks, role body and stored role,
  `RoleTheorems` the guarantees about the generated roles and the repair report.  Role URLs are
  abstract regexes; `NotDelete` gives the one concrete pattern a semantics and `SplitRule` relates it
  to the sampled paths.  `Routing` models listen paths, the longest-match route and the detection of
  ambiguous templates, `RoutingReach` how far a listen path can be made to match, and
  `RoutingTheorems` when the detection is complete.
- **Gating** (`src/cnc_mcp/safety.py`, `src/cnc_mcp/tools/__init__.py`), **Coverage**
  (`scripts/api_coverage.py`), **Client** (`src/cnc_mcp/client.py`), **Truncation**
  (`src/cnc_mcp/formatting.py`), **Emf** (`src/cnc_mcp/emf.py`), **Probe** (`src/cnc_mcp/probe.py`),
  **Polling** and **JobRun** (`src/cnc_mcp/polling.py`, `src/cnc_mcp/tools/ems_jobs.py`).

Parameters that stand for what the program does not decide: the answers of the platform and of the
login endpoint, clocks and jitter, the order in which a set of strings is iterated
(`Program.order`), which regexes compile and where they are found (`Regexes`), and the parsed
package with its imports resolved (`Program.names`).

Where a promise does not hold as stated, the model keeps the code and a lemma names the input:

- a fold misses an execution when a parameter is reassigned or a local augmented
  (`ReassignedParameterUnsound`, `AugmentedUnsound`), an f-string formats the result of a helper that
  can fall off its end (`FallingOffUnsound`), a parameter hides a function of the module
  (`HiddenFunctionUnsound`), a default names a local of its function (`DefaultLocalUnsound`), a
  parameter left unbound is named like a module constant (`UnboundParameterUnsound`), a dictionary
  display repeats a key (`RepeatedKeyUnsound`), text is stripped (`StripUnsound`) or a product of more than 64 combinations is cut
  (`CutProductLoses`); these are the hypotheses of soundness;
- a task cancelled during its DELETE leaves a token cached without its ticket until that token is
  rejected (`AbandonedDeleteKeepsToken`), and nothing else does (`TokenWithTicket`); the answer to the
  first login leg can be lost too, so the sessions that may be adrift include those it opened;
- an empty `any_of` group makes the generator's classification and the permission check disagree,
  on exactly the tools `EmptyAlternativeDisagrees` describes (`EmptyAlternativeExample` is one);
- a value that is empty, starts with a slash or is one final newline escapes the ambiguity detection
  (`OtherValuesEscape`: the condition on values is exact), and so do listen paths with variables that
  some value lets reach past the template's literal text without being recorded
  (`VariablePathEscapes`; `ConditionExact`: the condition on listen paths, decided from the template and
  the listen path alone, is exact);
- when a newline precedes the last slash the not-delete pattern is found only by reaching across that
  slash, whatever the last segment is (`FoundExactly`);
- two segments can share a request without matching; a segment matches all it shares a request with
  exactly when it has no placeholder or nothing else (`OverlapWithoutMatch`), and a match is always
  subsumption exactly for segments without adjacent placeholders (`AdjacentNotSubsumed`);
- without validation the order of declarations decides which tools are registered
  (`EarlyRequirementSkips`, and `OrderDecides` for two tools that show it);
- a cut list named `shown` takes the place of the truncation marker (`ShownReported`);
- a page header with a page-relative last position and no first one ends the walk after two pages
  (`WalkPages`);
- a scheduler row without an id is reported as a finished run (`MissingIdReportsFinished`);
- after a path with a verdict of its own is forgotten, its service's verdict answers for it
  (`ForgottenIsGone`, and `ForgottenStillAnswered` for a reachable cache).

## Model

| member | source | states |
|---|---|---|
| FolderTheorems.FoldedTemplatesCoverExecutions | scripts/api_coverage.py:468-627 | soundness over runs: execute any function on arguments that fit the bound templates, stop at any statement (after any branch, loop or caught exception) and evaluate an expression there; a string obtained is an instance of a template the expression folds to, from any sound memo, unless a product was cut. Asked only of what the expression rests on: plain locals, constants, dictionary entries and singly-defined helpers; a helper may return nothing unless an f-string formats it or it is passed on |
| FolderTheorems.EmptyMemoSound | scripts/api_coverage.py:406-406 | the empty memo an analyzer starts from is sound |
| FolderLimits.ReassignedParameterUnsound | scripts/api_coverage.py:516-519 | bound parameters win over assignments: with a reassigned parameter an execution yields a string no folded template denotes |
| FolderLimits.AugmentedUnsound | scripts/api_coverage.py:737-739 | an augmented assignment is folded like a plain one of its right-hand side, so the concatenation a run computes is covered by no template |
| FolderLimits.FallingOffUnsound | scripts/api_coverage.py:552-572 | a helper that may return nothing folds to its return expressions only, so an f-string of it yields a string its own fold does not cover |
| FolderLimits.HiddenFunctionUnsound | scripts/api_coverage.py:562-562 | a call through a parameter named like a function of the module folds to that function |
| FolderLimits.DefaultLocalUnsound | scripts/api_coverage.py:617-620 | a default is folded inside its function, where its names may be locals, though Python evaluates it outside |
| FolderLimits.UnboundParameterUnsound | scripts/api_coverage.py:516-533 | a parameter bound to nothing folds to the module constant of its name |
| FolderLimits.RepeatedKeyUnsound | scripts/api_coverage.py:542-545 | the first entry with a repeated key is folded, the last one is what the dictionary holds |
| FolderLimits.CutProductLoses | scripts/api_coverage.py:714-718 | past 64 distinct combinations that contain no placeholder, the next one is covered by no template kept: soundness needs the uncut product |
| FolderSound.Sound | scripts/api_coverage.py:468-514 | every string the expression takes in every frame the environment stands for is covered, and every value unless a helper that fell off its end yields it, and the memo stays sound, for names, constants, attributes, f-strings, sums, conditionals, and/or, dictionary lookups and calls with arguments, keywords, defaults and functions passed by reference |
| FolderSound.IndexSound | scripts/api_coverage.py:535-550 | a lookup in a dictionary display with distinct literal keys is covered: by the entry with the key, or by all entries when the key is not known |
| FolderSound.ConstantSound | scripts/api_coverage.py:458-466 | folding a module constant keeps the memo sound although an unfinished constant is memoised as a placeholder |
| FolderSound.CallSound | scripts/api_coverage.py:552-572 | expanding a call covers every string the callee can return for the arguments the caller can pass, and every value if each of its paths returns one |
| FolderSound.BindSound | scripts/api_coverage.py:574-627 | the environment built for a callee covers what its parameters are bound to at run time, defaults included unless they name a local of the callee |
| Folder.Evaluate | scripts/api_coverage.py:468-514 | ends on every program, cyclic constants and recursive helpers included: recursion decreases (constants not memoised, 41 - depth, ...), no constant leaves the memo and a cut product stays recorded |
| Folder.EvalConstant | scripts/api_coverage.py:458-466 | the guard memoised before a constant is folded makes the recursion through constants end |
| Provenance.ValueCollected | scripts/api_coverage.py:721-747 | a value an execution computes is also derived when every plain local may take any of its assignments: what the folder reads from _assignments_to misses nothing |
| Provenance.ExecExplained | scripts/api_coverage.py:721-795 | running any block of any function leaves every plain local explained by one of its assignments and returns only what some return expression derives |
| FolderExact.FoldExact | scripts/api_coverage.py:468-572 | exactness: wherever it stands (module level, a helper, its assignments or defaults), text folds, when no product is cut, to precisely the strings it can take, and to one string if it can take one only, whatever was folded before |
| FolderExact.TextFoldsToItsStrings | scripts/api_coverage.py:468-572 | at module level a fresh analyzer misses no string and adds none |
| FolderExact.ConstantFoldsToItsStrings | scripts/api_coverage.py:458-466 | a text constant folds to precisely the strings it can hold; the rest of the package may be anything |
| FolderExact.LookupFoldsToItsEntries | scripts/api_coverage.py:535-550 | a lookup in a dictionary with literal, distinct keys folds to the strings of all entries for a run-time key, and to those of its own entry for a literal one |
| FolderExact.LocalFold | scripts/api_coverage.py:516-529 | a local folds to exactly what its assignments can take |
| FolderExact.CallFold | scripts/api_coverage.py:552-572 | a call of a helper that always returns folds to exactly what its returns can take under the arguments |
| FolderExact.BindExact | scripts/api_coverage.py:574-627 | each parameter is bound, by the folder and at run time, to the same string or function, defaults filled in where the call leaves them out |
| FolderExact.CallablesMean | scripts/api_coverage.py:592-602 | a parameter is noted as a function exactly when its argument names one or passes on the caller's own |
| FolderDerives.ProductExact | scripts/api_coverage.py:714-718 | an uncut product is exactly the concatenations of one choice per part |
| FolderDerives.CallDerives | scripts/api_coverage.py:552-572 | what a call can take is what the helper's returns can take in the frame its arguments build |
| FolderDerives.IndexDerives | scripts/api_coverage.py:535-550 | what a lookup can take is what an entry can take that the dictionary may hold under the key |
| FolderForms.FormatFoldsToItsStrings | scripts/api_coverage.py:557-561 | the fold of a format call on text denotes exactly the strings formatting one of its texts can yield, whatever its fields become |
| FolderForms.StripFoldsToItsReceiver | scripts/api_coverage.py:555-556 | the fold of a strip call on text is what its receiver can be |
| FolderForms.StripUnsound | scripts/api_coverage.py:555-556 | so the stripped text is not in it when something is stripped |
| FolderForms.EveryTargetFolded | scripts/api_coverage.py:562-572 | a name with several definitions folds to the union of what each folds to, those being expanded aside |
| FolderForms.ProductCut | scripts/api_coverage.py:714-718 | a product is cut exactly beyond 64 concatenations, to the first 64 |
| FolderForms.DepthsCut | scripts/api_coverage.py:552-564 | nothing is read below level 40 and no helper expanded below level 32 |
| PySyntax.AssignmentsAre | scripts/api_coverage.py:721-767 | the expressions a local is taken for are those some statement at any depth binds it to, tuples unpacked element by element and loops over a display element by element |
| PySyntax.ReturnsAre | scripts/api_coverage.py:784-795 | the expressions of a helper are those of its return statements at any depth |
| FolderExample.HypothesesMet | scripts/api_coverage.py:458-627 | a module with a constant and a helper that formats it meets the hypotheses of soundness, and its tool's call of the helper folds, uncut, to the one URL |
| FolderExample.LookupFolds | scripts/api_coverage.py:535-550 | a dictionary of two paths meets the hypotheses of exactness and folds to both for a run-time key, to one for a literal key |
| Templates.ConcatInstance | scripts/api_coverage.py:714-718 | instances of two templates concatenate to an instance of the concatenated template, even where braces merge into a new placeholder |
| Templates.FormatsAreInstances | scripts/api_coverage.py:557-561 | the strings a template's formatting can yield are exactly the instances of the template with its fields replaced by placeholders |
| Analyzer.Analyzer.constructor | scripts/api_coverage.py:396-406 | a new analyzer has folded nothing |
| Analyzer.Analyzer.Evaluate | scripts/api_coverage.py:468-514 | result and memo are those of the function the theorems are about |
| Analyzer.Analyzer.EvalName | scripts/api_coverage.py:516-533 | likewise: binding first, then the self-reference guard, assignments, module constants |
| Analyzer.Analyzer.EvalConstant | scripts/api_coverage.py:458-466 | likewise: memo hit, guard entry, final entry |
| Analyzer.Analyzer.EvalSubscript | scripts/api_coverage.py:535-550 | likewise: the first entry with the literal key, else every entry |
| Analyzer.Analyzer.EvalCall | scripts/api_coverage.py:552-572 | likewise: the union over the targets not being expanded |
| Analyzer.Analyzer.BindArguments | scripts/api_coverage.py:574-627 | the three binding loops build exactly the callee environment of the specification, memo included |
| Analyzer.Analyzer.NoteCallable | scripts/api_coverage.py:596-606 | a later argument that names a function overrides an earlier one |
| Analyzer.Analyzer.MakeProduct | scripts/api_coverage.py:714-718 | the first 64 concatenations, in product order, or the placeholder |
| SessionSafety.SessionsConserved | src/cnc_mcp/auth.py:388-471 | over every interleaving each live session is the cached one, the one in a login's or re-login's hand, or one whose DELETE, second leg or first answer failed; with no such failure at most one is live |
| SessionSafety.TokenWithTicket | src/cnc_mcp/auth.py:211-237 | with the lock free a ticket is cached exactly when a token is, if and only if the cached token is not one whose DELETE was abandoned |
| SessionSafety.AbandonedDeleteKeepsToken | src/cnc_mcp/auth.py:457-471 | a run in which cancellation during the DELETE leaves a token without its ticket |
| SessionSafety.RequestsCarryTokens | src/cnc_mcp/client.py:233-253 | every request in flight carries a token the server issued |
| SessionSafety.DiscardedOnlyIfRejected | src/cnc_mcp/auth.py:223-243 | a cached token leaves the cache only after a request that carried it was rejected |
| SessionSafety.NoLoginStorm | src/cnc_mcp/auth.py:223-237 | with fresh tokens successful logins are at most one more than the distinct rejected tokens, however many requests failed on each |
| SessionSafety.ConcurrencyCapped | src/cnc_mcp/client.py:166-168 | no more calls than slots are between acquiring a slot and finishing |
| SessionSafety.NoDeadlock | src/cnc_mcp/client.py:105-106 | while a call is pending some call can move: waiting for the lock with a slot held never deadlocks |
| SessionSafety.ReloginRefines | src/cnc_mcp/auth.py:439-471 | the stretches of a re-login, taken together, change the cache as the strategy's method does |
| SessionSafety.FinalLogoutReleases | src/cnc_mcp/client.py:213-219 | the logout at shutdown, whatever its DELETE answers, leaves live only sessions a failure left behind, its own included, and the DELETE carries a token the server issued |
| SessionSafety.RunKeepsInv | src/cnc_mcp/auth.py:211-243 | the invariant behind these holds after every run |
| SessionCalls.CallEnds | src/cnc_mcp/client.py:233-286 | whatever the interleaving a pending call ends exactly with its cancellation, a final answer, a failed login leg, or, if it sends nothing, a cached token: a rejected request is never dropped |
| SessionCalls.ReplacedTokenResent | src/cnc_mcp/auth.py:223-234 | a request that takes the lock and finds another token than the rejected one is sent again with it at once, without a login |
| SessionCalls.NeverResentRejected | src/cnc_mcp/auth.py:223-243 | in every run in which no token is issued twice a call never sends again the token it was rejected with, whatever the other tasks do |
| SessionCalls.ReauthsOnce | src/cnc_mcp/client.py:271-275 | in every run a call has at most one answer handled as an auth failure |
| SessionCalls.SentWithCachedToken | src/cnc_mcp/client.py:236-253 | a request leaves with the token cached at that moment, after its own login the one just issued |
| SessionCalls.CachedTokenNeedsNoLock | src/cnc_mcp/auth.py:211-215 | a request with a slot is sent at once if a token is cached, and queues for the lock only without one |
| SessionCalls.FreshAfterLogin | src/cnc_mcp/auth.py:223-243 | the token a login obtains is one no request was rejected with, unless it was issued before |
| SessionCalls.HistoryRecords | src/cnc_mcp/auth.py:419-437 | the history grows exactly by the tokens issued, the logins and the tokens rejected |
| SessionCalls.AdriftOnlyByFailure | src/cnc_mcp/auth.py:439-471 | a session counts as left behind only through an unconfirmed or abandoned DELETE, a failed second leg or a lost first answer |
| SessionCalls.SessionsOpenAndClose | src/cnc_mcp/auth.py:388-417 | sessions open with a first leg and close with a DELETE, answered or not, and in no other step |
| SessionCalls.ClosedAdrift | src/cnc_mcp/client.py:213-219 | a confirmed logout at shutdown leaves no further session behind |
| CasLogin.TicketOf | src/cnc_mcp/auth.py:388-417 | a first answer yields a ticket if and only if successful and starting with TGT-, and which failures are bad credentials, the session limit, no ticket and no answer |
| CasLogin.JwtOf | src/cnc_mcp/auth.py:419-434 | a second answer yields a token if and only if successful and with exactly two dots, and how it fails otherwise |
| CasLogin.CasAuth.Login | src/cnc_mcp/auth.py:388-437 | token and ticket change together and only if both legs succeed |
| CasLogin.CasAuth.Logout | src/cnc_mcp/auth.py:457-471 | the ticket is forgotten at once, the DELETE carries the token still cached, the token goes only if it was answered |
| CasLogin.CasAuth.Relogin | src/cnc_mcp/auth.py:439-455 | the rejected token is never kept, whatever the DELETE answered |
| CasLogin.CasAuth.EnsureAuthenticated | src/cnc_mcp/auth.py:211-215 | a cached token is left alone |
| CasLogin.CasAuth.HandleUnauthorized | src/cnc_mcp/auth.py:223-237 | a token another task has replaced is kept; otherwise a re-login |
| CasLogin.LoginMeans | src/cnc_mcp/auth.py:388-437 | ticket and token are replaced together if and only if both answers are good, else nothing changes |
| CasLogin.LogoutMeans | src/cnc_mcp/auth.py:457-472 | the ticket is always forgotten; the token is dropped exactly when a DELETE was sent and answered, by a refusal too |
| CasLogin.ReloginMeans | src/cnc_mcp/auth.py:439-455 | after a re-login the cache holds the new pair or nothing |
| CasLogin.TokenShape | src/cnc_mcp/auth.py:419-434 | two dots means three parts without a dot, joined by dots |
| RoleTheorems.OperatorRoleComplete | scripts/rbac_map.py:1027-1090 | for every tool map, templates and baseline rows the check refuses no tool under the rights stored for the ticks all tools need: split rows, added templates and alternatives included, provided no POST ends in the delete segment, baseline rows cover their requirements and patterns treat both path samples alike |
| RoleTheorems.OperatorRoleLeast | scripts/rbac_map.py:1005-1090 | least privilege, both ways: on every API outside the baseline the stored operator role lets a method through on a path if and only if some tool's requests give a reason (DELETE for a DELETE, PUT and PATCH for a PUT, PATCH or a POST that does not read, GET for a GET or a POST that reads, POST for a write, guarded where POST can delete, or on a read template's path) |
| RoleTheorems.TicksMean | scripts/rbac_map.py:914-945 | the ticks of an API stand for exactly the methods the tools send there |
| RoleTheorems.StoredRows | scripts/rbac_map.py:1027-1090 | the stored row of every set of ticks, entry by entry: split, with templates, or as submitted |
| RoleTheorems.TickedUrls | scripts/rbac_map.py:980-985 | the submitted row of every set of ticks, in the editor's order |
| RoleTheorems.BodyCarriesTicks | scripts/rbac_map.py:1017-1024 | round trip: the ticks read back from a body are those it was built from |
| RoleTheorems.ReadOnlyRoleLets | scripts/rbac_map.py:1061-1090 | on every API outside the baseline the stored read-only role lets through GET, and POST on a read template's paths, if some tool uses the API, and nothing else |
| RoleTheorems.ClassifyMeans | scripts/rbac_map.py:914-928 | Read for a GET and a POST that reads, Write for a PUT, a PATCH and any other POST, Delete for a DELETE |
| RoleTheorems.ReadOnlyRoleExact | scripts/rbac_map.py:948-974 | under the stored read-only role the check permits a read tool if and only if the classification leaves nothing beyond Read, when no alternative is empty: the generator's cross-check always passes |
| RoleTheorems.EmptyAlternativeDisagrees | scripts/rbac_map.py:967-973 | with an empty alternative the two disagree on exactly the tools whose plain requirements are Read while every other alternative needs more |
| RoleTheorems.EmptyAlternativeExample | scripts/rbac_map.py:967-973 | a tool with an empty alternative and one that writes is read-only to the classification and refused by the check |
| RoleTheorems.ReadOnlyPermitsOnlyRead | scripts/rbac_map.py:1104-1147 | the stored read-only role permits no request the Read tick does not cover, on baseline APIs too provided their own rows permit none |
| RoleTheorems.NonReadIff | scripts/rbac_map.py:948-974 | the list of non-read requirements is empty exactly when Read covers the plain requirements and all of some alternative |
| RoleTheorems.NonReadAre | scripts/rbac_map.py:948-974 | the list holds exactly the methods beyond Read of plain requirements and, when every alternative needs more, of the first one's |
| RoleTheorems.TickedRowLets | scripts/rbac_map.py:980-985 | a stored row permits every method its ticks cover: on any path, through a read template, or through the not-delete pattern |
| RoleTheorems.TickedRowOnly | scripts/rbac_map.py:1027-1090 | a stored row permits nothing its ticks and read templates do not, and on a POST-delete API no POST the not-delete pattern refuses |
| RoleTheorems.ReadRowExact | scripts/rbac_map.py:1061-1090 | a stored Read row permits a method if and only if the classification says Read |
| RoleTheorems.RepairSuffices | src/cnc_mcp/tools/admin.py:698-764 | adding one any-path entry per listed grant makes re-evaluation refuse no named tool |
| RoleTheorems.RepairKeepsPermitted | src/cnc_mcp/tools/admin.py:606-617 | the repair takes no tool's permission away; rows that restrict no path are never listed |
| RoleTheorems.RepairMinimal | src/cnc_mcp/tools/admin.py:715-731 | without alternatives, leaving out any one listed method keeps some tool refused |
| RoleCompiler.TicksFor | scripts/rbac_map.py:939-945 | per API exactly the ticks some requirement of the tools needs, and no empty row |
| RoleCompiler.StoreAccessRights | scripts/rbac_map.py:1061-1090 | the loop stores the specified row for every submitted API and adds the baseline rows that are absent |
| RoleCompiler.AddBaseline | scripts/rbac_map.py:1085-1089 | a baseline row never replaces a submitted one |
| RoleCheck.MissingMethods | src/cnc_mcp/tools/admin.py:580-617 | lists what is not permitted; empty exactly when the API is granted and, unless its list is empty, each needed method stands on an entry that compiles and is found in the sampled path |
| RoleCheck.FindMissingRows | src/cnc_mcp/tools/admin.py:627-652 | one row per requirement that lacks something |
| RoleCheck.FindToolRows | src/cnc_mcp/tools/admin.py:667-695 | plain rows and, when no alternative is fully permitted, those of the first |
| RoleCheck.EvaluateRbacMap | src/cnc_mcp/tools/admin.py:698-764 | permitted, refused and unknown tools in order, and per API exactly the methods refused tools lack |
| RoleCheck.VerdictMeans | src/cnc_mcp/tools/admin.py:719-758 | every name is permitted when its tool lacks nothing, refused with exactly what it lacks, or not in the map |
| RoleCheck.ToolRowsIffRuns | src/cnc_mcp/tools/admin.py:667-695 | a tool lacks nothing exactly when the role lets through every plain requirement and all of some alternative |
| RoleCheck.ToolRowsAre | src/cnc_mcp/tools/admin.py:667-695 | the rows listed are those of plain requirements that lack something and, when no alternative is permitted, of the requirements of the first non-empty alternative |
| RoleCheck.MissingMeans | src/cnc_mcp/tools/admin.py:606-652 | a requirement lacks exactly the methods it needs that the role does not let through |
| NotDelete.FoundUnlessDelete | scripts/rbac_map.py:257-260 | the eight-alternative pattern, searched for in any path of at least two segments (optional trailing slash), is found if and only if the last segment is not the word delete, provided the character before the last slash is no newline |
| NotDelete.FoundExactly | scripts/rbac_map.py:257-260 | for any character before the last slash, when the last segment does not end in a newline: found if that character is no newline and the last segment is not the word, or if five characters around the slash let an alternative reach across it from a segment that follows no newline; otherwise not |
| NotDelete.FoundMeans | scripts/rbac_map.py:257-260 | it is found exactly where one of the alternatives follows a non-newline and is followed by at most one slash and the end |
| SplitRule.SamplesFareAlike | scripts/rbac_map.py:876-893 | the two path samples of a template, with a slash-bearing key in a RESTCONF last segment or not, are found by the not-delete pattern alike: unless the template's last segment is the word, so the sampling hypothesis holds for this pattern |
| SplitRule.StopsOnlyOnTheWord | scripts/rbac_map.py:1150-1166 | the generator stops exactly when a tool POSTs, on a POST-delete API, to a template ending in the word |
| Routing.Route | scripts/rbac_map.py:718-732 | the loop returns the API with the longest claim, the smaller id on a tie, whatever the dictionary order; none exactly when none claims the path |
| Routing.LessMeans | scripts/rbac_map.py:718-732 | the smaller id is the one that ends or has the smaller character where the two first differ |
| Routing.RouteUnique | scripts/rbac_map.py:718-732 | that API is unique, so the order does not matter |
| RoutingTheorems.EveryRouteRecorded | scripts/rbac_map.py:734-785 | whatever a template's placeholders become, the request routes to an API recorded for the template, if the text from the first placeholder on is non-empty, starts with no slash and is not a lone newline, and each listen path of the catalogue is settled (it cannot claim past the literal text, or can, is recorded and does not claim the template) or open (the first value falls into its last variable, with nothing after it) |
| RoutingTheorems.ConditionExact | scripts/rbac_map.py:744-753 | that condition on a listen path is exact: in a catalogue of the root and it, every route of the template is recorded if and only if it is settled or open |
| RoutingTheorems.HeadSettled | scripts/rbac_map.py:744-753 | a listen path meets it when its text before the first variable is not a prefix of the template's literal text; a literal one always |
| RoutingTheorems.ShortSettled | src/cnc_mcp/tools/admin.py:504-525 | a listen path meets it when it has fewer slashes than the template's literal text |
| RoutingReach.MatchEndMeans | src/cnc_mcp/tools/admin.py:524-525 | the backtracking match finds a decomposition of the path into the literal parts and one-segment variables whenever there is one |
| RoutingReach.MatchUnique | src/cnc_mcp/tools/admin.py:524-525 | a match uses up as many slashes as the listen path has, so it cannot end anywhere else once it ends at a slash |
| RoutingReach.OpenClaims | src/cnc_mcp/tools/admin.py:524-525 | an open listen path claims every continuation, up to the end of the segment the value begins in |
| RoutingTheorems.OtherValuesEscape | scripts/rbac_map.py:744-753 | every other value escapes the detection for some catalogue of literal listen paths |
| RoutingTheorems.VariablePathEscapes | scripts/rbac_map.py:744-753 | a template routes to an outer API, a request made from it to an inner one with a variable, which is not recorded |
| Routing.LiteralClaim | src/cnc_mcp/tools/admin.py:504-525 | a literal listen path claims exactly the paths that continue it at a segment boundary, trailing slashes aside |
| Routing.VariableSplits | src/cnc_mcp/tools/admin.py:214-214 | a listen path is cut at each braced variable |
| Gating.RegisteredIffRequirementsAre | src/cnc_mcp/tools/__init__.py:143-166 | when the validator finds no problem a tool is registered exactly when its own gate passes and everything it requires is registered in the end |
| Gating.SameToolsRegistered | src/cnc_mcp/tools/__init__.py:95-99 | two orders of the same declarations that both validate register the same tools |
| Gating.RequirementsFirstValidates | src/cnc_mcp/safety.py:175-177 | declaring every tool after those it requires validates under any settings |
| Gating.EarlyRequirementSkips | src/cnc_mcp/safety.py:241-254 | in any order, a tool declared before one it requires is skipped, and the order fails to validate if another valid order registers the tool |
| Gating.OrderDecides | src/cnc_mcp/safety.py:241-254 | two read tools, one of which requires the other, in either order: registered one way, skipped and not valid the other |
| Gating.RegisteredAllowed | src/cnc_mcp/safety.py:125-140 | over any declarations a registered tool is not disabled by name in any letter case, a write only with writes enabled and in a listed area if areas are listed, in dry-run mode wrapped |
| Gating.AllowedRegistered | src/cnc_mcp/safety.py:182-224 | a declaration is registered if and only if the settings let it through and all it requires is registered when it is declared |
| Gating.SkippedBecause | src/cnc_mcp/safety.py:125-140 | which reason a skipped tool is given, in the order of the checks |
| Gating.DisabledInAnyCase | src/cnc_mcp/safety.py:125-131 | a lower-cased name on the list keeps out every spelling of it |
| Gating.AppContext.RegisterTool | src/cnc_mcp/safety.py:182-224 | records the decision on the registry as it stands; a name declared twice changes nothing |
| Gating.AppContext.RegisterAll | src/cnc_mcp/tools/__init__.py:95-99 | the final registry is the fold of the declarations, or a duplicate name is reported |
| Gating.AppContext.FindMissing | src/cnc_mcp/safety.py:241-254 | the first required tool not registered now |
| Gating.AppContext.RequirementProblems | src/cnc_mcp/tools/__init__.py:143-166 | exactly the undefined requirements and those defined too late |
| Gating.AppContext.ValidateGating | src/cnc_mcp/tools/__init__.py:188-216 | passes exactly when all areas and tool names are known and no requirement is a problem |
| Coverage.MatchIsSubsumption | scripts/api_coverage.py:295-305 | for brace-clean segments without adjacent placeholders the regex of one matches the text of another exactly when it describes every segment the other describes |
| Coverage.PathMatchMeans | scripts/api_coverage.py:295-311 | two clean paths without adjacent placeholders match if and only if they have as many segments and of each two one describes every text the other does |
| Coverage.MatchSharesRequest | scripts/api_coverage.py:308-311 | a path match yields a concrete request both the documented path and the tool template describe |
| Coverage.PathMatchSymmetric | scripts/api_coverage.py:300-311 | matching is symmetric |
| Coverage.OverlapWithoutMatch | scripts/api_coverage.py:300-305 | a clean one-line segment without adjacent placeholders matches every such segment it shares a request with if and only if it has no placeholder or is nothing but one |
| Coverage.AdjacentNotSubsumed | scripts/api_coverage.py:295-305 | every clean text the regex of a clean segment matches is subsumed by it if and only if no two of its placeholders are adjacent |
| Client.ApiClient.RequestWithRetries | src/cnc_mcp/client.py:221-286 | at most max_retries + 2 sends and max_retries sleeps, one re-authentication, each send but the last followed for a permitted reason and by the sleep its attempt calls for; a 429, and a 502, 503 or 504 of a retryable request, is returned only accepted or after max_retries sleeps |
| Client.ApiClient.Backoff | src/cnc_mcp/client.py:288-300 | sleeps between 0 and 37.5 seconds |
| Client.DelayBounded | src/cnc_mcp/client.py:288-300 | whatever Retry-After says (section 10.2.3 of RFC 9110), and a hint of at most 30 seconds is honoured |
| Client.DelayMeans | src/cnc_mcp/client.py:288-300 | the sleeps start at the configured delay and double up to 30 seconds, a number of seconds lengthens them to it, other headers do not, and jitter adds up to a quarter |
| Client.WritesNotRepeated | src/cnc_mcp/client.py:254-286 | a non-retryable request is sent again only after a 429 or its auth failure |
| Client.AcceptedNotRetried | src/cnc_mcp/client.py:277-286 | an accepted status is never followed by a backoff |
| Client.TotalSleepBounded | src/cnc_mcp/client.py:288-300 | total sleep is at most 37.5 seconds per retry |
| Client.DefaultResendable | src/cnc_mcp/client.py:163-164 | by default exactly the idempotent methods (section 9.2.2 of RFC 9110) are resendable, in any letter case, and spellings of one name fare alike |
| Truncation.RenderGrows | src/cnc_mcp/formatting.py:144-152 | one more entry always makes the text longer: a digit lost by the note cannot offset it |
| Truncation.TruncateJson | src/cnc_mcp/formatting.py:157-171 | the binary search returns the text with the largest number of entries in 1..total-1 that fits, None exactly when none fits, and what it found fits, so the last loop never iterates |
| Truncation.ChooseKey | src/cnc_mcp/formatting.py:130-138 | items when present, else the first of the longest lists |
| Truncation.ShownReported | src/cnc_mcp/formatting.py:149-151 | the marker says how many entries are shown unless the list is itself called shown |
| Truncation.CountsReported | src/cnc_mcp/formatting.py:144-151 | read back as decimals, the marker's numbers are the entries kept and the entries dropped |
| Truncation.MembersInOrder | src/cnc_mcp/formatting.py:149-151 | when no member is called like a marker, all follow the three in their order |
| Truncation.MembersKept | src/cnc_mcp/formatting.py:149-151 | the other members are unchanged and the cut list holds its first entries |
| Emf.StripPrefixes | src/cnc_mcp/emf.py:305-333 | filling the output dictionary key by key never overwrites an entry |
| Emf.StripKeyMeans | src/cnc_mcp/emf.py:87-90 | a key loses exactly a leading identifier and dot that a character other than a newline follows |
| Emf.StrippingRenames | src/cnc_mcp/emf.py:305-333 | at every depth each value keeps its place under exactly one key of its own, the original or the stripped one |
| Emf.NewKeysDiffer | src/cnc_mcp/emf.py:322-329 | no key takes a name another key owns or also strips to, and no two keys take one name |
| Emf.StrippedWhenFree | src/cnc_mcp/emf.py:322-329 | a prefix is dropped exactly when no other key is or strips to the name |
| Emf.PageEnvelope | src/cnc_mcp/emf.py:256-302 | more pages exactly when the reported page is full; the next start advances by the page length |
| Emf.WalkPages | src/cnc_mcp/emf.py:256-302 | following the next start visits all n objects once, in order, in n / max + 1 requests, for absolute and page-relative positions and for none; with page-relative last positions alone it ends after the second page, so it visits all if and only if n is at most 2 * max |
| Probe.OneProbePerKey | src/cnc_mcp/probe.py:384-399 | in every interleaving of callers and forgets at most one probe per key is in flight |
| Probe.OnlyConclusiveStored | src/cnc_mcp/probe.py:396-398 | the two dictionaries have the same keys, and each holds a conclusive answer to a probe of the recorded path |
| Probe.VerdictsWereProbed | src/cnc_mcp/probe.py:384-399 | every verdict returned was answered by a probe of its key |
| Probe.StoredOncePerForget | src/cnc_mcp/probe.py:355-363 | a key is stored at most once more often than it was forgotten |
| Probe.KeysAreStable | src/cnc_mcp/probe.py:288-301 | a key is its own key |
| Probe.PrefixOfMeans | src/cnc_mcp/probe.py:288-301 | a path is keyed by its service, a path of a per-path service by itself up to the query |
| Probe.OtherPathsAreKeys | src/cnc_mcp/probe.py:288-301 | any other path is its own key |
| Probe.EnsureRefines | src/cnc_mcp/probe.py:365-399 | the steps of one undisturbed call amount to ensure: return what is cached, else lock, probe, and store what is conclusive |
| Probe.HistoryRecords | src/cnc_mcp/probe.py:355-399 | stores, forgets and answers are counted exactly as they happen |
| Probe.EnsuredIsFound | src/cnc_mcp/probe.py:343-399 | what ensure returned is found again under its key exactly when conclusive, and by every path of that key unless the path is an explicit key with another verdict; what other keys find is unchanged |
| Probe.ForgottenIsGone | src/cnc_mcp/probe.py:343-363 | after a path or key is forgotten nothing is found by it, unless its own verdict hid that of its service |
| Probe.ForgottenStillAnswered | src/cnc_mcp/probe.py:343-363 | a reachable cache in which a path still finds a verdict after it was forgotten |
| Probe.Availability.Forget | src/cnc_mcp/probe.py:355-363 | one key, or all, leave both dictionaries together |
| Probe.Availability.Ensure | src/cnc_mcp/probe.py:365-399 | probes exactly when nothing is cached, and stores only a conclusive verdict |
| Polling.WaitUntil | src/cnc_mcp/polling.py:19-40 | stops at the first poll that is done or leaves no time for another, after at most timeout / interval + 1 polls |
| JobRun.FinishedMeansRan | src/cnc_mcp/tools/ems_jobs.py:771-795 | a wait holding the id captured from a row that was not In-Progress reports finished only if a run began after the capture, whatever the pickup delay, and the last poll was not In-Progress |
| JobRun.FinishedRunReported | src/cnc_mcp/tools/ems_jobs.py:771-795 | when each run leaves an id of its own, a poll reports finished if and only if a run has begun since the capture and none is in progress |
| JobRun.MissingIdReportsFinished | src/cnc_mcp/tools/ems_jobs.py:177-178 | while no run has begun since a non-empty id was captured, a poll reports finished if and only if the row it read has no id |
| JobRun.OtherReports | src/cnc_mcp/tools/ems_jobs.py:771-830 | not started, still running and not in progress are reported exactly in their cases |
| JobRun.RunJob | src/cnc_mcp/tools/ems_jobs.py:539-567 | nothing is sent for an unknown or running job, and the id handed to the wait stems from a row that was not In-Progress |
| JobRun.WaitForJob | src/cnc_mcp/tools/ems_jobs.py:767-830 | the report follows from the last poll, no earlier poll was done, and the polls are bounded |

## Left out

- Python parsing and import chains of the coverage script: `Program` holds parsed modules with names resolved.
- Soundness is stated without `*args`/`**kwargs`, walrus assignments, nested functions, f-string conversions, strip and format calls; what strip and format calls fold to is in FolderForms, where formatting reads fields as the script's pattern does (no escaped braces).
- FolderExact.FoldExact: arguments that can be more than one string, whose uses in one f-string the folder combines freely.
- Set displays: the elements of one are bound by a loop in the source, never by unpacking; displays here are tuples and lists. Module constants are assigned once and dictionaries not changed afterwards; a helper defined more than once is out of scope.
- The order in which `ast.walk` meets assignments and returns; the folder here reads them in program order, and non-string dict keys are not matched.
- `Analyzer.collect` and `record_request`, `normalise`, `generic_match`, and all report rendering.
- CasLogin.TicketOf: `strip()` and JSON decoding of the error field; a `Reply` carries the stripped body and the lower-cased error.
- `invalidate()`, which nothing calls, and a logout racing with running requests: shutdown is a final step. Extra headers of a call are taken not to set Authorization.
- SessionSafety.NoDeadlock: fairness of the lock and the semaphore; some call can move, not each in turn.
- Regexes of role URLs other than the not-delete pattern; a url that is no string counts as one that does not compile.
- The report's reasons, feature names, per-grant tool names and the order of its rows; sorting of generated lists.
- NotDelete.FoundExactly: last segments that end in a newline, for which FoundMeans says where the pattern is found.
- RoleTheorems.RepairMinimal: says nothing of tools with alternatives, where the report lists the first alternative although another may be nearer.
- Reason texts of skipped tools: they are a datatype here, so a tool name that looks like part of a reason text is not modelled.
- The SDK's tool table, strict argument models and what the dry-run wrapper does; whether it can be installed is one flag of a declaration.
- Lower- and upper-casing beyond ASCII.
- Client.ApiClient.RequestWithRetries: bodies, headers and the mapping of final statuses to errors; floating-point rounding of delays, which are real numbers here.
- Truncation.TruncateJson: JSON parsing and escaping; a payload carries its serialised members and entries, and the plain cut used when no entry fits is not modelled.
- Emf `unwrap`, `data_keys`, parameter checks and the XML fallback: single passes without a state.
- Probe `classify` and `explain`: decision tables and texts.
- Polling.WaitUntil: a failing fetch, which ends the wait with its error; times are whole clock ticks.
- JobRun.WaitForJob: the flag seen_in_progress is a function of the polls so far instead of a captured variable.
