# LCSH term hierarchy, modelled in Dafny

This project models the core of casics/dassie. That core builds a store of
Library of Congress Subject Headings (LCSH) terms from the SKOS vocabulary
(W3C SKOS Reference: labels in section 5, notes in section 7, `broader` and
`narrower` in section 8, collections in section 9). It then walks the
hierarchy the terms form. The model covers:

- **The build script** (`utils/parse-lcsh-and-create-db.py`). Its copy in
  `misc-scripts/` is byte for byte the same, so one model and one set of
  line numbers serve both. Three passes update one term store:
  - a streaming pass dispatches each RDF triple on the suffix of its predicate;
  - the narrower pass derives `narrower` as the inverse of `broader`;
  - the two-phase topmost pass marks the roots, then computes the roots above
    every other term (`get_topmost`, `flatten`).

  `CreateDb.TermStore` is the store as a class: its methods update a
  `map<string, Term>` record by record. Each method is proved equal to a
  specification function in `Build`, `Narrower` or `Topmost`, and the
  properties of the passes are proved about those functions.
- **The path tracer `get_paths`** and the line renderer `print_paths`
  (`Trace`). Both packaged front ends (`dassie/query_dassie.py`,
  `locterms/query_locterms.py`) have them textually the same.
- **The front ends' helpers** (`Query`): the style mapping `color_codes`,
  `colorcode`, `msg`, the argument checks of `main`, the database URL, and the
  trace action as `main` runs it.
- **The dassie credential codec** (`Credentials`): `_encode`, `_decode`,
  `get_credentials`, `save_credentials`, and the step of `main` that saves
  changed credentials.
- **The stand-alone query script** (`query-locterms.py`) in `QueryScript`,
  with lemmas comparing it with the packaged front ends.
- **Three traversal scripts**:
  - the older four-pass builder in `OldParse`;
  - the tree printer with its `unfound` set in `Hierarchy`;
  - the nested-document expander in `TopDown`.

The shared data model is in `Lcsh`:
- a `Triple` is three strings;
- a `Term` holds the record's fields;
- `topmost` is `Uncomputed` (the source's `[]`), `Root` (the source's
  `None`) or `Roots(ids)`;
- a `Store` maps identifiers to terms.

Failures are values:
- a pass that indexes into a missing record stops with `MissingRecord(id)`.
  This is the outer `try/except`, which aborts the rest of the pass. It is
  distinct from the branches that print and skip;
- a trace that meets a missing parent returns `Err(id)`.

The source has no cycle guard. Recursion along `broader` is therefore given a
ghost `rank` map that decreases from a child to each parent, and recursion
along `narrower` one that decreases from a parent to each child. Database
cursors are a `scan` parameter: a list of the collection's identifiers with
no duplicates. The port probe is the boolean `occupied`. The keyring's value is
`stored: Option<string>`.

Each pass is specified twice:
- by a specification function, which its class method is proved to compute;
- by an independent characterisation, such as the multiset inverse of
  `broader`, the set of roots reachable along `broader` chains, or "every
  chain to a root".

Lemmas connect the two.

## Model

| member | source | states |
|---|---|---|
| Text.GetId | utils/parse-lcsh-and-create-db.py:52-53 | the identifier is the longest suffix without `/`: the whole URI if it has no `/`, else exactly what follows the last `/` |
| Text.Strip | utils/parse-lcsh-and-create-db.py:195 | the stripped note is the middle of the text between its leading and trailing white space, and starts and ends with a non-space |
| Text.SplitJoin | dassie/query_dassie.py:438-443 | splitting at a separator undoes joining with it when no part contains the separator |
| Text.JoinSplit | dassie/query_dassie.py:438-443 | joining the parts of a split with the separator gives back the original string |
| Text.DecimalValue | misc-scripts/lcsh-create-hierarchy.py:48-49 | the numeral printed for a count denotes that count |
| Build.PrefLabelInserts | utils/parse-lcsh-and-create-db.py:141-154 | a `prefLabel` for a new identifier inserts exactly one new record, under the text after the last `/`; every other record is unchanged |
| Build.PrefLabelFirstWins | utils/parse-lcsh-and-create-db.py:147-149 | a `prefLabel` for an identifier already stored leaves the store unchanged |
| Build.ChildrensSubjectIgnored | utils/parse-lcsh-and-create-db.py:144-146 | any triple whose subject identifier starts with `sj` succeeds and leaves the store unchanged |
| Build.ChildrensParentIgnored | utils/parse-lcsh-and-create-db.py:175-177 | a `broader` triple whose object identifier starts with `sj` leaves the store unchanged |
| Build.AltLabelAppends | utils/parse-lcsh-and-create-db.py:156-167 | on a stored subject, `LL` changes nothing; any other alt label is appended at the end of `alt_labels`, and nothing else changes |
| Build.AltLabelMissingFails | utils/parse-lcsh-and-create-db.py:243-245 | an `altLabel` for an absent subject fails, and the whole first pass aborts there with the store as it was |
| Build.BroaderAppends | utils/parse-lcsh-and-create-db.py:178-184 | an absent subject is skipped; otherwise the parent is appended at the end of `broader`, duplicates kept, and nothing else changes |
| Build.BroaderDispatch | utils/parse-lcsh-and-create-db.py:169-174 | a predicate ending in `broader` takes the `broader` branch with the identifiers of subject and object |
| Build.NoteJoins | utils/parse-lcsh-and-create-db.py:186-199 | a `note` on an absent subject is skipped; on a stored one the note becomes the join of the stored note and the stripped text |
| Build.EditorialNoteCases | utils/parse-lcsh-and-create-db.py:201-216 | text with the validation marker sets only `validation-record`, or does nothing on an absent id; other text joins the note, and fails on an absent id |
| Build.FlagsOnAbsentIds | utils/parse-lcsh-and-create-db.py:218-236 | the topic-subdivision and genre-form flag updates on an absent identifier change nothing |
| Build.StepFailsOnlyOnMissing | utils/parse-lcsh-and-create-db.py:164-165 | a triple fails only when it is an `altLabel` or a non-validation `editorialNote` and its subject has no record |
| Build.StepPreserves | utils/parse-lcsh-and-create-db.py:131-241 | a successful step keeps every record under its identifier, loses no record and changes no label |
| Build.StepKeys | utils/parse-lcsh-and-create-db.py:131-241 | a successful step adds a record only for the subject of a `prefLabel` triple; every other branch keeps the set of identifiers |
| Build.BuildPreserves | utils/parse-lcsh-and-create-db.py:127-245 | the first pass, aborted or not, keeps the store well formed, loses no record and changes no label |
| Build.BuildSplit | utils/parse-lcsh-and-create-db.py:131 | the first pass is a stream fold: `ts + us` runs `ts`, then `us` unless `ts` aborted |
| Build.AltLabelBeforePrefLabelAborts | utils/parse-lcsh-and-create-db.py:131-167 | for any store and stream: an `altLabel` (other than `LL`) for a term with no record and no earlier `prefLabel` in the stream aborts the pass; if nothing earlier aborted it, the pass stops at that triple with the store the earlier triples built and that term's identifier |
| CreateDb.TermStore.FindOne | utils/parse-lcsh-and-create-db.py:147 | the lookup finds a record exactly when the identifier is stored, and returns that record |
| CreateDb.TermStore.UpdateOne | utils/parse-lcsh-and-create-db.py:166 | `update_one` with `upsert=False` replaces a stored record and changes nothing for an absent one |
| CreateDb.TermStore.Scan | utils/parse-lcsh-and-create-db.py:256 | a cursor yields every stored identifier once |
| CreateDb.TermStore.Ingest | utils/parse-lcsh-and-create-db.py:131-241 | one iteration of the triple loop writes the step's store, or raises the step's failure and writes nothing |
| CreateDb.TermStore.Build | utils/parse-lcsh-and-create-db.py:127-245 | the triple loop leaves the store and the raised failure that the stream fold gives |
| CreateDb.TermStore.LinkChildren | utils/parse-lcsh-and-create-db.py:258-264 | the inner loop appends the child to each parent's `narrower` in `broader` order, stopping at the first missing parent |
| CreateDb.TermStore.DeriveNarrower | utils/parse-lcsh-and-create-db.py:253-269 | the narrower pass over a cursor gives the store and failure of `Narrower.NarrowerFold` |
| CreateDb.TermStore.MarkRootsPass | utils/parse-lcsh-and-create-db.py:286-291 | phase 1 leaves the store that `Topmost.MarkRoots` gives |
| CreateDb.TermStore.GetTopmost | utils/parse-lcsh-and-create-db.py:56-76 | `get_topmost` returns what `Topmost.TopmostOf` specifies |
| CreateDb.TermStore.ResolveTopmost | utils/parse-lcsh-and-create-db.py:293-299 | phase 2 gives the store and failure of `Topmost.Resolve` |
| CreateDb.TermStore.Run | utils/parse-lcsh-and-create-db.py:127-301 | after the three passes, records are as the first pass left them except for `narrower` and `topmost`; on a closed acyclic store, `narrower` inverts `broader`, `None` marks exactly the parentless terms and every other term holds its roots; the same code is at `misc-scripts/parse-lcsh-and-create-db.py:127-301` |
| CreateDb.ParentStep | utils/parse-lcsh-and-create-db.py:60-74 | one iteration of the parent loop of `get_topmost` contributes the parent's item |
| CreateDb.LaterPassesCorrect | utils/parse-lcsh-and-create-db.py:253-301 | on a well-formed, closed, acyclic store both later passes run to the end and leave the final state |
| Narrower.LinkChildAppends | utils/parse-lcsh-and-create-db.py:258-264 | when every parent exists, each parent's `narrower` gains the child once per occurrence in `bs`; other fields are unchanged |
| Narrower.LinkChildFails | utils/parse-lcsh-and-create-db.py:259-262 | linking fails only on a parent in `bs` that has no record |
| Narrower.NarrowerAppendsChildren | utils/parse-lcsh-and-create-db.py:253-269 | on a closed store the pass runs to the end and appends to each `narrower` the children of the term in cursor order |
| Narrower.NarrowerFailsOnlyOnMissing | utils/parse-lcsh-and-create-db.py:267-269 | the pass aborts only on a parent identifier with no record |
| Narrower.ChildrenCount | utils/parse-lcsh-and-create-db.py:256-258 | over a duplicate-free cursor, a child occurs in a parent's children as often as the parent occurs in the child's `broader` |
| Narrower.NarrowerInvertsBroader | utils/parse-lcsh-and-create-db.py:253-269 | starting from empty `narrower` lists on a closed store, `c` occurs in `p.narrower` exactly as often as `p` occurs in `c.broader`, and `broader` is unchanged |
| Narrower.NarrowerRerunDoubles | utils/parse-lcsh-and-create-db.py:262-264 | a second run appends the children again, so every count doubles: the pass is not idempotent |
| Narrower.NarrowerKeepsTopmost | utils/parse-lcsh-and-create-db.py:264 | whatever its outcome, the pass changes only `narrower` lists |
| Topmost.Flatten | utils/parse-lcsh-and-create-db.py:79-84 | `flatten` leaves only identifiers, the same ones in the same left-to-right order; the same code is at `misc-scripts/parse-lcsh-and-create-db.py:79-84` |
| Topmost.Dedup | utils/parse-lcsh-and-create-db.py:76 | `list(set(...))` has no duplicates and the same members |
| Topmost.RootsAreRoots | utils/parse-lcsh-and-create-db.py:56-76 | every root above a term has a record and no parent; on a closed store there is at least one |
| Topmost.TopmostIsRootsAbove | utils/parse-lcsh-and-create-db.py:56-76 | on a closed acyclic store with a sound cache, `get_topmost` succeeds with a duplicate-free list of exactly the roots above the term |
| Topmost.MarkRootsShape | utils/parse-lcsh-and-create-db.py:286-291 | phase 1 sets `None` exactly on the scanned parentless terms and changes nothing else |
| Topmost.ResolveSettles | utils/parse-lcsh-and-create-db.py:293-299 | phase 2 runs to the end and gives every pending scanned term the list of its roots |
| Topmost.TopmostPassCorrect | utils/parse-lcsh-and-create-db.py:280-299 | after both phases, `topmost` is `None` exactly for parentless terms; every other term holds a duplicate-free list of exactly its roots |
| Topmost.RootReachable | utils/parse-lcsh-and-create-db.py:56-76 | every root above a term ends a chain of `broader` links that starts at the term |
| Topmost.ChainEndIsRoot | utils/parse-lcsh-and-create-db.py:56-76 | conversely, the end of every `broader` chain from a term to a root is among its roots |
| Topmost.TopmostKeepsNarrower | utils/parse-lcsh-and-create-db.py:287-296 | the topmost pass writes only `topmost` |
| Trace.GetPaths | dassie/query_dassie.py:199-215 | `get_paths` returns the paths `Trace.AllPaths` specifies, or the first parent without a record; the same code is at `locterms/query_locterms.py:180-196` |
| Trace.AppendPrefixed | dassie/query_dassie.py:211-212 | the inner loop appends `[entry] + path` for every parent path, in order |
| Trace.TracedPathsAreRootChains | dassie/query_dassie.py:199-215 | every traced path starts at the term, follows `broader` links and ends at a term without parents |
| Trace.RootChainsAreTraced | dassie/query_dassie.py:199-215 | every such chain from the term is among the traced paths |
| Trace.PathCount | dassie/query_dassie.py:205-214 | a successful trace returns one path for a root, else the sum of its parents' path counts |
| Trace.TraceFailsOnlyOnMissing | dassie/query_dassie.py:206-209 | a trace fails only on an identifier with no record, and never on a closed store |
| Trace.RenderPath | dassie/query_dassie.py:218-232 | a path is printed root first: the root without indent, the k-th following line after 3·(k−1) spaces and `└─ `, then a blank line |
| Trace.RenderBlock | dassie/query_dassie.py:225-232 | the indent-growing loop produces `RenderPath`'s lines |
| Trace.RenderPaths | dassie/query_dassie.py:218-232 | `print_paths` prints the blocks of all paths in order; the same code is at `locterms/query_locterms.py:199-213` |
| Trace.RenderedLineCount | dassie/query_dassie.py:218-232 | rendering prints `|p| + 1` lines per path |
| Trace.TracedBlockShape | dassie/query_dassie.py:199-232 | a traced path's block starts with an unindented root and reaches the term itself on its last entry line |
| Query.ColorCodes | dassie/query_dassie.py:328-358 | the sequence of overwrites and appends yields `CodesFor(flags)`; the same code is at `locterms/query_locterms.py:292-322` |
| Query.PresentMembers | dassie/query_dassie.py:350-357 | the attribute selection keeps exactly the listed elements that occur among the flags, without duplicates |
| Query.CodesIgnoreFlagOrder | dassie/query_dassie.py:328-358 | only which flags occur matters, not their order or repetition |
| Query.ErrorCodes | dassie/query_dassie.py:334-336 | `error` gives prefix `ERROR`, colour red, no attributes |
| Query.WarningCodes | dassie/query_dassie.py:337-339 | `warning` gives prefix `WARNING`, colour yellow, no attributes |
| Query.DarkCodes | dassie/query_dassie.py:356-358 | `dark` gives only the `dark` attribute |
| Query.WarningBeatsError | dassie/query_dassie.py:334-349 | with both flags, `warning` wins the prefix and, absent a colour flag, the colour |
| Query.AttrsAreKnownFlags | dassie/query_dassie.py:350-358 | the attributes are duplicate-free and are exactly the attribute flags given |
| Query.ColorCode | dassie/query_dassie.py:311-325 | without colour: `PREFIX: text` when there is a prefix, else the text; with colour, the text is styled with the flags' colour and attributes; the same code is at `locterms/query_locterms.py:275-289` |
| Query.PlainPrefixes | dassie/query_dassie.py:322-325 | without colour, a warning reads `WARNING: …`, an error `ERROR: …`, and anything else is unchanged |
| Query.ErrorStyles | dassie/query_dassie.py:311-325 | an error is red text with colour and `ERROR: …` without |
| Query.MsgWithoutFlags | dassie/query_dassie.py:304-308 | `msg` with no flags prints its text unchanged either way |
| Query.CheckArgsProceeds | dassie/query_dassie.py:114-141 | `main` goes on exactly when: at most one of describe, trace and summarize is set (find is not counted); some action is set; ids are given unless find or summarize is set; all of them start with `sh` unless find is set; the port is a number; and the port answers. Too many actions exit with the red error, no action with the yellow warning, missing ids with the red error; a port that is not a number raises `ValueError` once the earlier checks pass |
| Query.LocTermsChecks | locterms/query_locterms.py:101-124 | the locterms checks: the same except that there is no find action, so identifiers are required unless summarize is set, and every identifier given is checked; no action exits with the yellow warning |
| Query.UrlRoundTrip | dassie/query_dassie.py:144-149 | the URL can be read back into its user, password, host and port when the user has no `:` and host and port have no `@` (nor the port a `:`); the same code is at `locterms/query_locterms.py:127-132` |
| Query.CredentialsRoundTrip | dassie/query_dassie.py:144-148 | the user and the optional `:password` part read back into the user and password |
| Query.TraceOne | dassie/query_dassie.py:181-187 | an unknown term prints `Could not find … in the database`; a known one prints its paths, or raises exactly when the trace meets a parent with no record |
| Query.TraceTermsRaise | dassie/query_dassie.py:164-176 | the loop over the terms stops only at a parent with no record, and never on a closed store |
| Query.MissingParentOutput | dassie/query_dassie.py:177-178 | as written, a missing parent ends the output with the red name-error text and no closing rule; as intended, the program exits naming the parent |
| Query.ClosedStoresAgree | dassie/query_dassie.py:164-176 | on a closed store the as-written and the intended work section print the same lines |
| Query.OrphanTrace | dassie/query_dassie.py:206-209 | for one concrete store (`Orphan`: `sh1` names the parent `sh2`, which has no record), tracing `sh1` prints the name error instead of the parent; an instance of Query.MissingParentOutput, which states it for every store; the same code is at `locterms/query_locterms.py:187-190` |
| Credentials.Decode | dassie/query_dassie.py:442-443 | `_decode` yields at least one field, none of which holds the separator |
| Credentials.EncodeIsJoin | dassie/query_dassie.py:438-439 | `_encode` joins the four values with the separator |
| Credentials.DecodeEncode | dassie/query_dassie.py:431-443 | `_decode(_encode(u, p, h, o)) == (u, p, h, o)` when no field holds the separator |
| Credentials.EncodeDecode | dassie/query_dassie.py:438-443 | a value that decodes to four fields is encoded back to itself |
| Credentials.SavedRoundTrip | dassie/query_dassie.py:386-403 | `get_credentials` of what `save_credentials` stored gives back the four fields, absent ones as empty strings (the saved value is never empty, so the four-`None` branch is not taken) |
| Credentials.Refresh | dassie/query_dassie.py:120-125 | the save step fails exactly when the stored value does not decode to four fields; it writes only when the stored fields differ from the given ones, and then writes their encoding |
| Credentials.RefreshStores | dassie/query_dassie.py:120-125 | with given non-empty fields, the keyring afterwards decodes to them and a second run changes nothing |
| Credentials.RefreshIdempotent | dassie/query_dassie.py:120-125 | for fields without the separator, repeating the save step changes nothing more |
| QueryScript.ScriptCodesAgree | query-locterms.py:213-227 | on the flags it knows, the chain agrees with the packaged `color_codes`; on any other flag it gives no style |
| QueryScript.Colorized | query-locterms.py:197-210 | without colour: `PREFIX: text` or the text; with colour, attributes take priority over the colour |
| QueryScript.ColorizedAgrees | query-locterms.py:197-210 | on a known flag, `colorized` styles exactly as the packaged `colorcode` does |
| QueryScript.MsgAsWritten | query-locterms.py:190-194 | as written, `msg` drops its flag, so its output is never styled |
| QueryScript.MsgDropsFlag | query-locterms.py:190-194 | with colour on, an error message comes out unstyled as written but red as intended |
| QueryScript.MsgAgrees | query-locterms.py:190-194 | the intended `msg` matches the packaged `msg` on every known flag |
| QueryScript.ScriptChecksProceed | query-locterms.py:47-66 | the script goes on exactly when one action is chosen, a user and a password are given, there are terms, all are `sh` ids, and no port is given or it is a number that answers; a given port that is not a number raises `ValueError` exactly when the earlier checks pass |
| QueryScript.CheckScriptArgs | query-locterms.py:47-66 | the two checks that return print through the written `msg`, so their message is plain text, and it is one of the two texts the script prints |
| QueryScript.ScriptChecksExit | query-locterms.py:47-55 | exactly the first four checks exit, each with its red message |
| QueryScript.NoPortNoProbe | query-locterms.py:63-66 | without a port, neither the parse of the port nor the probe's answer matters |
| QueryScript.NoActionFirst | query-locterms.py:48-49 | a missing action is reported before missing credentials or terms |
| QueryScript.IntendedChecksStyled | query-locterms.py:57-66 | with the flag passed on as intended, the checks decide the same way and print the same texts, but with colour on the two returning messages come out red instead of plain |
| QueryScript.HostPortRoundTrip | query-locterms.py:70-72 | host and optional port read back from `host[:port]` |
| QueryScript.ScriptUrlRoundTrip | query-locterms.py:70-73 | the URL reads back into user, password, host and port under the stated character restrictions |
| QueryScript.NoRulesConcat | query-locterms.py:82-90 | dropping the rule lines distributes over concatenation |
| QueryScript.TraceLinesAreNotRules | query-locterms.py:93-98 | no line a trace prints is a rule |
| QueryScript.ScriptTraceAgrees | query-locterms.py:81-123 | the script stops at the same missing parent as the packaged trace (`SystemExit` naming it), and prints the same lines once its rules are dropped |
| QueryScript.ScriptTraceEnds | query-locterms.py:109-123 | a run ends with the closing rule, or with `Broader term X not found.` for a parent X with no record; a closed store never exits |
| OldParse.Insert | misc-scripts/failed-attempts/parse-lcsh.py:50-51 | inserting fails with a duplicate exactly when the identifier is stored; otherwise it adds a record with empty lists |
| OldParse.AddAltLabel | misc-scripts/failed-attempts/parse-lcsh.py:59-71 | `LL` changes nothing; otherwise it fails exactly on an absent id and else appends the label |
| OldParse.AppendTo | misc-scripts/failed-attempts/parse-lcsh.py:76-106 | an absent subject is skipped; otherwise the object id is appended to the pass's list and nothing else changes |
| OldParse.WalkFaults | misc-scripts/failed-attempts/parse-lcsh.py:44-114 | only the `prefLabel` pass can stop, on a duplicate insert, and only the alt-label pass on an absent id; the `broader` and `narrower` passes never stop |
| OldParse.LabelsWalkFinishes | misc-scripts/failed-attempts/parse-lcsh.py:45-54 | pass 1 finishes exactly when the `prefLabel` ids are distinct and none is stored yet |
| OldParse.AltLabelsWalkFinishes | misc-scripts/failed-attempts/parse-lcsh.py:58-71 | the alt-label pass finishes exactly when every subject of a non-`LL` alt label is stored |
| OldParse.AltLabelsWalkAppends | misc-scripts/failed-attempts/parse-lcsh.py:58-71 | when it finishes, each term's alt labels gain its non-`LL` values in model order |
| OldParse.AppendWalk | misc-scripts/failed-attempts/parse-lcsh.py:76-106 | a `broader` or `narrower` pass appends to each stored subject its objects in model order and skips absent ones |
| OldParse.WalksFinish | misc-scripts/failed-attempts/parse-lcsh.py:44-114 | the four passes finish exactly when the label ids are distinct and new, and every alt-label subject is stored or labelled |
| OldParse.WalksBuild | misc-scripts/failed-attempts/parse-lcsh.py:44-111 | after the four passes every labelled term exists with exactly its alt labels, `broader` and `narrower` from the triples, whatever the triple order |
| OldParse.OldStore.RunWalk | misc-scripts/failed-attempts/parse-lcsh.py:44-109 | one pass's loop leaves the store and the fault that the pass function gives |
| OldParse.OldStore.Run | misc-scripts/failed-attempts/parse-lcsh.py:44-114 | the four loops leave the store and fault of `Walks` |
| Hierarchy.Indented | misc-scripts/lcsh-create-hierarchy.py:32-36 | `output` prints the term's own line first, and every line it prints, its children's included, carries at least its depth in tabs |
| Hierarchy.FoundAreChildren | misc-scripts/lcsh-create-hierarchy.py:34-36 | every id `output` removes from `unfound` is somebody's narrower, and the id it fails on has no record |
| Hierarchy.ChildrenFound | misc-scripts/lcsh-create-hierarchy.py:34-35 | a successful `output` removes every narrower id of the term |
| Hierarchy.ClosedEmits | misc-scripts/lcsh-create-hierarchy.py:32-36 | on a store closed under `narrower`, `output` never fails |
| Hierarchy.TopsFindAll | misc-scripts/lcsh-create-hierarchy.py:44-46 | when the top-level loop succeeds, every narrower id of every scanned term has been removed from `unfound` |
| Hierarchy.Unreached | misc-scripts/lcsh-create-hierarchy.py:39-46 | after a successful run, `unfound` holds exactly the terms without narrower that are nobody's narrower |
| Hierarchy.Printer.Output | misc-scripts/lcsh-create-hierarchy.py:32-36 | the recursive `output` prints and discards exactly what the `Emission` function specifies |
| Hierarchy.Printer.CollectLeaves | misc-scripts/lcsh-create-hierarchy.py:39-42 | `unfound` starts as exactly the stored ids whose `narrower` is empty, and nothing is printed |
| Hierarchy.Printer.Run | misc-scripts/lcsh-create-hierarchy.py:39-55 | the script prints the traversal of every term with narrower terms; then the count of unfound terms if non-zero, and `Done`; a failure prints neither |
| TopDown.ExpandShape | misc-scripts/failed-attempts/lcsh-create-top-down.py:23-29 | a successful expansion has the same length and order as its ids, each element being that id's own expansion |
| TopDown.DocumentMirrors | misc-scripts/failed-attempts/lcsh-create-top-down.py:26-28 | each document is its term with `narrower` replaced by the expansions of its `narrower` ids, all the way down |
| TopDown.FailsOnlyOnMissing | misc-scripts/failed-attempts/lcsh-create-top-down.py:26-27 | expansion fails only on an id with no record, and never on a store closed under `narrower` |
| TopDown.Collections.ListNarrower | misc-scripts/failed-attempts/lcsh-create-top-down.py:23-29 | the loop with recursion returns the `Expand` specification's result |
| TopDown.UpsertsOverride | misc-scripts/failed-attempts/lcsh-create-top-down.py:36-39 | the upserts replace the root documents whatever the collection held; what fails does not depend on it |
| TopDown.WrittenKeys | misc-scripts/failed-attempts/lcsh-create-top-down.py:34-39 | only parentless terms get a document, each the expansion of that root; with no failure, every root gets one |
| TopDown.FailureSkips | misc-scripts/failed-attempts/lcsh-create-top-down.py:43-44 | a failure at one root keeps the documents written before it and skips every later root |
| TopDown.Idempotent | misc-scripts/failed-attempts/lcsh-create-top-down.py:39 | a rerun over the same store leaves the collection as one run does |
| TopDown.Collections.Run | misc-scripts/failed-attempts/lcsh-create-top-down.py:34-44 | the per-root loop leaves `terms` unchanged and the collection and failure of `Upserts` |

## Left out

- The MongoDB client, cursors and index creation become operations on an in-memory map. A cursor is any duplicate-free listing of the collection's keys. The projections passed to `find_one` are not modelled, because the model always reads whole records.
- The RDF/N-Triples parser is left out. The triples are a given sequence of three strings.
- Keyring storage is a value `stored: Option<string>`. The interactive prompts of `obtain_credentials` are left out because they are terminal input.
- `port_occupied` is a boolean parameter, `occupied`, because it probes a socket. Whether Python's `int` accepts the port string is a boolean parameter, `portIsInt`, because the model does not parse numbers; when it is false, the model stops with `Crash("ValueError")` where the source raises.
- Query.CheckArgsProceeds, Query.LocTermsChecks and QueryScript.ScriptChecksProceed: which strings `int` accepts (signs, white space, underscores, non-ASCII digits) is not modelled, only its outcome `portIsInt`.
- TopDown.WrittenKeys and TopDown.Collections.Run: a `replace_one` of a document over MongoDB's 16 MiB BSON limit raises and, like a missing record, ends the loop at the handler (misc-scripts/failed-attempts/lcsh-create-top-down.py:39, 43-44). Documents have no size in this model, so "with no failure, every root gets one" assumes every document fits.
- `termcolor.colored` is left out because it is a foreign library. Its result is the value `Colored(text, color, attrs)`. `pprint`, `humanize`, `print_details`, `explain_term` and `print_summary` are left out because they are formatting over foreign libraries.
- `find_terms` is left out because it is a regular-expression query inside MongoDB.
- The `ipdb` debugger and the progress counters and prints are left out. The outer handler is modelled as "abort the rest of the pass". The same goes for the top-down script's BSON size print.
- The UTF-8 `encode` calls on identifiers and labels are not modelled: strings are sequences of characters.
- Version files, `__init__` files and the connection scripts are left out because they hold no logic.
- Topmost.Dedup keeps first occurrences. Python's `list(set(xs))` order is arbitrary, so every contract about `topmost` speaks of its set of members and its lack of duplicates.
- TopDown.Idempotent, and all recursion along `broader` or `narrower`, rely on an acyclicity rank map. A cycle makes the source recurse until Python's recursion limit; that is not modelled.
- Query.CheckArgsProceeds covers the options that `main` checks. The credentials step between them is modelled separately by Credentials.Refresh.
- Query.MsgWithoutFlags and every output contract describe the text of each line. The terminal colour codes themselves are not modelled.
- The database count query of the dassie `main` and its `Unable to query database` exit (dassie/query_dassie.py:155-160) are outside this model, because they only count records.

## Findings

| source | as written | input that shows it | evidently intended | confidence | as-written member | corrected member |
|---|---|---|---|---|---|---|
| dassie/query_dassie.py:206-209 | `get_paths` reports a missing parent through `colorize`, a name local to `main`, so a `NameError` is raised and `main` prints it in red | a term `sh1` whose `broader` names `sh2`, which has no record | exit with `Broader term sh2 not found.` | not executed | Query.OrphanTrace | Query.TraceWork |
| locterms/query_locterms.py:187-190 | the same `NameError` in the locterms front end | `sh1` with missing parent `sh2` | exit naming the missing parent | not executed | Query.MissingParentOutput | Query.TraceWork |
| query-locterms.py:190-194 | `msg` calls `colorized(text)` without passing its flag, so nothing is ever styled | `msg('x', 'error')` with colour on | the text styled by its flag (red for `error`) | not executed | QueryScript.MsgDropsFlag | QueryScript.Msg |
