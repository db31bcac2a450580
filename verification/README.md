# Tainer: verified models of its text formats, limits and state machines

Tainer is a web console for Proxmox clusters. This project models the parts of it where the logic is
dense rather than wide, and proves what they promise.

* **Environment text** (`EnvText`, `EnvMerge`, `EnvEditor`, `EnvConfig`, `BulkEnv`). Container
  variables travel as `KEY=value` lines. Three parsers read them (the server's line loop, the launch
  form's field, the deployment page's editor), three printers write them, two identical copies of
  `mergeEnvText` combine them, and `envTextToString` / `envPairsToText` convert them to and from the
  NUL-separated form stored by Proxmox. Every round trip is stated with the exact condition under
  which it holds.
* **The operation rate limiter** (`RateLimiter`). A fixed window in a table shared by all users and
  swept on every call, as an object with a ghost history of its calls.
* **References and certificates** (`OciReference`, `OciResults`, `DockerReference`, `Base64`, `Certificates`). The
  normaliser of pasted image addresses, the Docker Hub parser, the registry classifier, and the
  wrapping of DER files as PEM.
* **User groups** (`UserGroups`, `GroupMeaning`). The four group actions over the group and user stores:
  exactly when each is allowed and what it then does, and what no run of actions can change.
* **The rebalance plan** (`Optimizer`, `Rebalance`, `PlanStore`, `PlanProtocol`, `PlanRuns`,
  `PlanTheorems`, `PlanOutcomes`, `PlanLaunches`, `PlanLoss`, `PlanCap`, `PlanOverruns`, `PlanOverlap`).
  The greedy optimizer with the tags and settings that restrict it, the
  store transactions, and a state machine in which actions and executor ticks are interleaved between
  any two of their store accesses. A tick that times out is not stopped, so the machine has any number
  of ticks under way, each with its own copy of the plan, and keeps the migrations that really run
  apart from what the store says. Writes that fail, and starts whose answer is lost, are events of it.
* **The cap on migrations** (`ClusterCap`, `ClusterRuns`, `ClusterCounts`). The balancer's whole tick over that machine:
  it counts the single migrations it watches, runs the plan's step, and starts single migrations with
  what is left of the cap. What the balancer counts and what runs are kept apart.
* **Recreate from template** (`Recreate`). The stop, delete, create, restore, start protocol. Each
  request can be refused, fail, or take effect without its success being reported.
* **Redirects** (`Navigation`). The proxy, the layouts, the page guards and the pages, those included
  that only lead on to a site's page, as one redirect relation.

`Text` holds the JavaScript string operations the others share, `Options` the option type. Code that
works step by step is modelled by methods and classes proved against functions; the theorems are
lemmas about those functions. The classes are `EnvEditor.Field`, `RateLimiter.Limiter`,
`UserGroups.Stores`, `PlanStore.RebalanceStore` and `Recreate.Host`.

Assumptions, all of them parameters of the model: the clock does not run backwards and the sweep
reads it before the check does; fresh ids are not in use; store transactions are atomic; the outcome
of each remote request is arbitrary, and a task reported as succeeded has taken effect.

Where the code does less than its names or documentation suggest, the model follows the code, and a
lemma gives a concrete input or the exact condition:

* The "add" button of the launch form compares the trimmed new key with the stored keys untrimmed, so
  the text `a =1` and a typed key `a` give two entries for one key (`EnvEditor.AddCanDuplicate`).
* Setting a variable in bulk on a container whose configuration cannot be read replaces its whole
  environment by that one variable (`BulkEnv.EveryKeySurvivesExactly`,
  `BulkEnv.UnreachableIsReplaced`). A write whose answer is lost changes the container and is counted
  as skipped (`BulkEnv.BulkSetEnv`). A stored value that spans lines is cut at its first line, and a
  further line of the form `KEY=value` becomes a variable (`BulkEnv.MultiLineIsLost`,
  `BulkEnv.SecondLineBecomesVariable`).
* Recreating a container loses its environment if the configuration could not be read, if some key is
  not a word, or if some value spans lines; and it leaves a running container stopped if its status
  could not be read (`Recreate.SuccessKeeps`).
* Waiting for a task gives up on the first status report that is lost. When that happens to a deletion
  that succeeds, the container is gone and its creation is never sent (`Recreate.LostReportLoses`).
* The stored admin role outlives the admin group that gave it (`UserGroups.AdminOutlivesDeletedGroup`,
  `UserGroups.DeletionWithdrawsExactly`), and the seeded Administrators group carries explicit
  permissions although the forms never give any to an admin group
  (`UserGroups.SeededAdminIsNotWellFormed`).
* docs/load-balancer.md promises that the cluster's migrations in flight never exceed the cap. They do
  not after any run that meets six rules (`ClusterCap.SixRulesKeepTheCap`). The code enforces none of
  them, and for each there is a run, for every cap, that breaks only that rule and exceeds the cap:
  - no tick begins while another is under way; a tick that timed out is (`ClusterRuns.OverlapExceeds`);
  - no action, and no transaction that cannot read the store file, ends, replaces or clears an active
    plan while one of its migrations runs or a tick holds it; no tick counts a cancelled plan's migration (`ClusterRuns.CancelExceeds`);
  - a plan step is not cut short, its read included, while a migration of the plan runs; the tick goes
    on as if none did (`ClusterRuns.FailedStepExceeds`);
  - the process does not end between a start and its record (`ClusterRuns.UnrecordedExceeds`);
  - every start that takes effect is answered; otherwise it is recorded as failed
    (`ClusterRuns.LostAnswerExceeds`);
  - a single migration is forgotten only when it has ended; the code forgets it after an hour
    (`ClusterRuns.ForgottenExceeds`).
* What the stored plan shows keeps to the cap in every run in which ticks do not overlap and store the
  ends they learn of (`PlanCap.CapIsKept`). A tick that was delayed and resumes beside later ones, or
  one that goes on after a failed write, leaves two migrations in it
  (`PlanOverlap.OverlappingTicksOverrun`, `PlanOverruns.UnstoredEndShowsTwo`).
* docs/load-balancer.md promises that cancelling drops the queued moves. A cancel does so exactly when,
  at that moment, no tick under way could still start one (`PlanLaunches.CancelStopsPlanExactly`);
  otherwise each such tick may start one more (`PlanLaunches.LateLaunchesReached`,
  `PlanLaunches.LateLaunch`). A tick that finishes with an older copy may overwrite the cancellation
  with "completed" (`PlanTheorems.CancelledTurnsCompletedExactly`,
  `PlanTheorems.CancelledCanEndCompleted`). And since no tick reads a cancelled plan, a migration in
  flight at the cancel is shown as migrating for ever (`PlanTheorems.CancelledPlanIsFrozen`).
* An active plan disappears from the store exactly at the write of a compute, which replaces or clears
  it, or of a cancel that had read the draft, which clears it; in both cases it was applied between
  that action's read and write (`PlanLoss.LostExactlyWhenOvertaken`, with a run of each).
* The normaliser is not idempotent: `h/x/-/Packages/container/i` becomes a GitLab page only once its
  path is in lower case (`OciResults.CapitalExample`), and `http:// a` keeps a leading space
  (`OciReference.NotAlwaysIdempotent`). Which addresses are safe is decided on the address without
  scheme, trailing slashes and web path (`OciResults.IdempotentOnCore`). A GitHub package page of an
  organisation named `-` is read as a GitLab page (`OciResults.DashOrganisationAddress`).
* With a session and no enabled site, `/` and `/setup` redirect to each other for ever
  (`Navigation.LoopsForever`). In every other visit three redirects are enough, and two are not: a
  session without access that opens `/alerts` goes by `/setup` and `/` to `/no-access`
  (`Navigation.NoAccessTakesThree`), and before the first user exists `/tags/a.b` goes by a site's page
  and `/login` to `/setup` (`Navigation.NoUserTakesThree`).

## Model

| member | source | states |
|---|---|---|
| EnvText.ParsersSkipNothing | src/components/env-vars-field.tsx:52-58 | the blank-text test at the head of both browser parsers never changes what they read |
| EnvText.ContentLinesOfPrint | src/components/env-vars-field.tsx:55-78 | printed legible entries are split into exactly the printed lines again |
| EnvText.KeptInOrder | src/components/env-vars-field.tsx:70-78 | printing leaves out blank keys and keeps the rest in order; the launch form trims the keys it prints, the editor does not |
| EnvText.CleanRoundTrip | src/app/proxmox-actions.ts:179-191 | entries with a trimmed, non-empty, legible key come back unchanged through the server's printer and all three parsers |
| EnvText.FieldRoundTrip | src/components/env-vars-field.tsx:52-78 | the launch form's field keeps its non-blank entries, keys trimmed, over print and parse if and only if each kept entry is legible |
| EnvText.EditorRoundTrip | src/components/deployment-env-editor.tsx:30-49 | the same for the deployment editor, which does not trim the keys it prints |
| EnvText.EditorsAgree | src/components/deployment-env-editor.tsx:30-42 | the two browser parsers read the same entries if and only if no content line starts with "=" |
| EnvText.EditorAgreesWithServer | src/app/proxmox-actions.ts:179-186 | the deployment editor and the server's loop read the same list if and only if every content line has "=" after a non-empty key without trailing white space |
| EnvMerge.ReadInto | src/app/proxmox-actions.ts:178-187 | one pass of the line loop leaves the overridden list of the bindings before and in the text |
| EnvMerge.MergeEnvText | src/app/proxmox-actions.ts:175-192 | the loops over an insertion-ordered map compute the printed override of both texts' bindings |
| EnvMerge.PutOverrides | src/app/proxmox-actions.ts:184 | setting a key in an insertion-ordered map is overriding a list by one more binding |
| EnvMerge.MergeBindings | src/components/deployment-template-launch-panel.tsx:32-47 | reading a merged text gives the overridden bindings of both texts, all of them clean |
| EnvMerge.MergeMeaning | src/app/proxmox-actions.ts:175-192 | each key of a merge has its last value in incoming if bound there, else its last value in existing, and no key is bound twice |
| EnvMerge.MergeKeyOrder | src/app/proxmox-actions.ts:189-191 | the keys come in order of first appearance in existing, then those only incoming binds in its order |
| EnvMerge.MergeFixedPoint | src/app/proxmox-actions.ts:175-192 | a merged text is unchanged by merging with the empty text on either side |
| EnvMerge.MergeAssociative | src/app/proxmox-actions.ts:175-192 | merging is associative on exact text, for all texts |
| EnvMerge.MergeAbsorbs | src/components/deployment-template-launch-panel.tsx:86-88 | the server merging the panel's merge over the same image text again changes nothing |
| EnvMerge.MergeReadsAlike | src/components/deployment-env-editor.tsx:30-49 | on a merged text both browser parsers agree with the server, and both browser printers reproduce the text |
| EnvEditor.AddKeepsDistinct | src/components/env-vars-field.tsx:173-195 | adding keeps printed keys distinct if and only if the trimmed key is blank, stored exactly, or stored in no form |
| EnvEditor.AddCanDuplicate | src/components/env-vars-field.tsx:181 | the concrete text and key for which adding breaks distinctness |
| EnvEditor.AddMeaning | src/components/env-vars-field.tsx:173-195 | adding gives the key its value and leaves the value of every other key |
| EnvEditor.SuggestMeaning | src/components/env-vars-field.tsx:143-157 | a suggestion binds a new key only; keys already bound keep their values |
| EnvEditor.SuggestKeepsDistinct | src/components/env-vars-field.tsx:143-157 | suggestions keep printed keys distinct |
| EnvEditor.RemoveKeepsDistinct | src/components/env-vars-field.tsx:169-171 | removals keep printed keys distinct |
| EnvEditor.RemoveMeaning | src/components/env-vars-field.tsx:169-171 | removing takes one entry out and leaves the others in order |
| EnvEditor.EditMeaning | src/components/env-vars-field.tsx:159-167 | editing changes the key or the value of one entry, and nothing else |
| EnvEditor.AddInPlace | src/components/env-vars-field.tsx:173-195 | adding overwrites the first entry with the trimmed key in its place, or appends one |
| EnvEditor.EditKeepsDistinct | src/components/env-vars-field.tsx:159-167 | editing a key in place keeps printed keys distinct if and only if no other entry prints the new key; editing a value always does |
| EnvEditor.RunKeepsDistinct | src/components/env-vars-field.tsx:143-195 | from trimmed distinct keys, no run of add, suggest, remove and edit steps makes two entries print one key, as long as each edited key is trimmed and free |
| EnvEditor.UniqueMeaning | src/components/env-vars-field.tsx:100-115 | a suggestion group lists each non-blank trimmed key once, with its first value |
| EnvEditor.UniqueSuggestions | src/components/env-vars-field.tsx:100-110 | the loop over a map computes that list |
| EnvEditor.Field.constructor | src/components/env-vars-field.tsx:88-90 | the field starts from the parsed text with empty inputs |
| EnvEditor.Field.AddEntry | src/components/env-vars-field.tsx:173-195 | the button performs the add step on the typed key and clears both inputs unless the key is blank |
| EnvEditor.Field.AddSuggestedEntry | src/components/env-vars-field.tsx:143-157 | choosing a suggestion performs the suggest step |
| EnvEditor.Field.RemoveEntry | src/components/env-vars-field.tsx:169-171 | removing performs the remove step |
| EnvEditor.Field.UpdateKey | src/components/env-vars-field.tsx:159-167 | editing the key performs the key step |
| EnvEditor.Field.UpdateValue | src/components/env-vars-field.tsx:159-167 | editing the value performs the value step |
| EnvConfig.EncodeMeaning | src/lib/proxmox.ts:1842-1870 | a text is accepted for storing if and only if every content line binds a word key, and then exactly its bindings are stored |
| EnvConfig.WordsGrow | src/lib/proxmox.ts:1842-1870 | a key is a word if and only if it begins with a letter or underscore and goes on with letters, digits and underscores |
| EnvConfig.WriteThenRead | src/lib/proxmox.ts:1810-1870 | a stored text reads back with its bindings if and only if no value holds a NUL |
| EnvConfig.WrittenText | src/lib/proxmox.ts:1836-1840 | the text shown for a stored environment is the printed bindings of the text that was stored |
| EnvConfig.ReadThenWrite | src/lib/proxmox.ts:1810-1870 | reading an environment and storing the text again keeps every entry if and only if each key is a word and no value spans lines |
| BulkEnv.Rewrite | src/app/group-actions.ts:526-545 | the loop and the set compute the printed override of the old text by the chosen binding, or nothing when the key had to exist and does not |
| BulkEnv.SetOne | src/app/group-actions.ts:522-553 | one member is written, or left alone when reading throws, the key is missing, the text or the write is refused; it counts as updated only when the write is answered |
| BulkEnv.WriteDecides | src/app/group-actions.ts:547-552 | a refused write leaves the container alone, an unanswered one changes it and counts as skipped, and an accepted one counts if and only if there was something to write |
| BulkEnv.BulkSetEnv | src/app/group-actions.ts:505-563 | members are the sum of updated, skipped and excluded ones for every pattern of failures and lost answers, and each container ends as its own update says |
| BulkEnv.LxcInOrder | src/app/group-actions.ts:505-506 | containers are taken and virtual machines left out, in order |
| BulkEnv.LxcExactly | src/app/group-actions.ts:505-506 | a member is processed if and only if it is no virtual machine, as often as it occurs |
| BulkEnv.UpdateOverrides | src/app/group-actions.ts:526-549 | an updated container holds the bindings read from it in order with only the chosen key overridden, if and only if the value has no newline, NUL or trailing white space |
| BulkEnv.EveryKeySurvivesExactly | src/app/group-actions.ts:524-549 | whatever was stored, an update keeps another key's stored value if and only if the text that was read, empty when the container was not reached, gives the key that value |
| BulkEnv.SurvivorsArePortable | src/app/group-actions.ts:524-549 | whatever was stored, a key that keeps its value is a word and its value one line |
| BulkEnv.StoredEntriesSurviveExactly | src/app/group-actions.ts:524-549 | an updated container with word keys and one-line values holds its stored entries, in order, with only the chosen key overridden, if and only if its configuration was reached or it held nothing else |
| BulkEnv.UpdateIsLocal | src/app/group-actions.ts:524-549 | with word keys and one-line values stored, every other key keeps its value when the container was reached, and loses it when it was not |
| BulkEnv.MultiLineIsLost | src/lib/proxmox.ts:1836-1847 | whatever was stored, an update takes its value from every key whose value spanned lines |
| BulkEnv.SecondLineBecomesVariable | src/lib/proxmox.ts:1836-1847 | the second line of a stored value, when it reads as a binding, becomes a variable of its own |
| BulkEnv.UpdateRepeats | src/app/group-actions.ts:522-549 | repeating the operation stores the same configuration again |
| BulkEnv.SkippedExactly | src/app/group-actions.ts:537-550 | a container whose read does not throw and whose write is not refused keeps its configuration if and only if the key had to exist and did not, or some key read is no word |
| BulkEnv.UnreachableIsReplaced | src/lib/proxmox.ts:2987-2995 | a failed configuration read is taken for an empty environment, so the chosen variable is all that is left |
| RateLimiter.Limiter.constructor | src/app/proxmox-actions.ts:153-155 | the table starts empty |
| RateLimiter.Limiter.Sweep | src/app/proxmox-actions.ts:158-161 | exactly the entries whose window began before the cutoff are deleted |
| RateLimiter.Limiter.Check | src/app/proxmox-actions.ts:157-173 | the object's table is the table of its history, and the call is decided by that table |
| RateLimiter.SharedTableIsPerUser | src/app/proxmox-actions.ts:157-173 | on any interleaving each call is decided as by a single-user limiter that never prunes |
| RateLimiter.SoloIgnoresOthers | src/app/proxmox-actions.ts:164-172 | that single-user limiter depends on its user's calls alone |
| RateLimiter.SlidingBound | src/app/proxmox-actions.ts:153-173 | in every run any half-open interval of one window admits at most twice the limit less one operations of a user |
| RateLimiter.SlidingBoundIsSharp | src/app/proxmox-actions.ts:165-171 | for every limit and window of at least two milliseconds some run reaches that bound |
| RateLimiter.OperationsBound | src/app/proxmox-actions.ts:153-154 | with the configured ten operations in five minutes, at most 19 are admitted in any five minutes |
| RateLimiter.OperationsWorst | src/app/proxmox-actions.ts:153-154 | and 19 are admitted in some |
| RateLimiter.RejectedOnlyWhenFull | src/app/proxmox-actions.ts:165-168 | a call is rejected only if limit operations of its user were admitted within the last window |
| RateLimiter.RejectionKeepsWindow | src/app/proxmox-actions.ts:166-168 | a rejection changes neither the user's window nor the stored entry |
| RateLimiter.LockoutEnds | src/app/proxmox-actions.ts:165-172 | every call at or after the end of the window is admitted |
| RateLimiter.WaitingOneWindowSuffices | src/app/proxmox-actions.ts:157-173 | after a rejection, waiting one window without calling is enough, whoever else calls |
| RateLimiter.TableWellKept | src/app/proxmox-actions.ts:159-172 | after any run each entry counts from one to the limit and began no earlier than the last cutoff |
| OciReference.NormalizeOciReference | src/app/docker-hub-actions.ts:290-343 | the step-by-step normaliser computes the composition of its steps |
| OciReference.ResultIsCanonical | src/app/docker-hub-actions.ts:316-333 | every result with a slash reads host, lower-case path, colon, tag |
| OciReference.UntaggedBranchUnreachable | src/app/docker-hub-actions.ts:317-333 | after the default tag has been added, a colon follows the first slash, so the untagged branch is dead |
| OciReference.IdempotentExactly | src/app/docker-hub-actions.ts:290-343 | normalising twice is normalising once if and only if the result is trimmed, has no lower-case scheme and is no web path |
| OciResults.IdempotentOnCore | src/app/docker-hub-actions.ts:290-343 | the same decided before the last steps: the core has no leading space, no trailing space the result exposes, no lower-case scheme left, and a path that in lower case is no web page |
| OciResults.CapitalPageNotIdempotent | src/app/docker-hub-actions.ts:296-333 | every clean address that is no web page as pasted and one in lower case fails to be idempotent |
| OciResults.MisspeltPageNotIdempotent | src/app/docker-hub-actions.ts:298-333 | so does every host/project/-/packages/container/image with that word spelt with a capital |
| OciResults.CapitalExample | src/app/docker-hub-actions.ts:298-333 | a concrete one |
| OciReference.NotAlwaysIdempotent | src/app/docker-hub-actions.ts:290-343 | a concrete input on which normalising twice differs |
| OciReference.TaggedReads | src/app/docker-hub-actions.ts:321-328 | a tagged reference changes only in its path, which becomes lower case |
| OciReference.UntaggedReads | src/app/docker-hub-actions.ts:316-319 | without a colon after the first slash the tag is "latest" |
| OciReference.SchemeReads | src/app/docker-hub-actions.ts:335-340 | before a tagged reference a lower-case scheme is dropped, and a host without dot or colon gets port 443 or 80 in its place |
| OciResults.SchemeReadsUntagged | src/app/docker-hub-actions.ts:316-340 | the same before an untagged reference, which also gets the tag "latest" |
| OciResults.GitLabAddress | src/app/docker-hub-actions.ts:296-340 | the address of a GitLab registry page, with a scheme or none, normalises to host, port, lower-case project and image, and its tag or "latest" |
| OciResults.GhcrAddress | src/app/docker-hub-actions.ts:296-340 | the address of a GitHub package page normalises to host, port, lower-case organisation and image, and its tag, or "latest" unless the organisation is "-" |
| OciResults.DashOrganisationAddress | src/app/docker-hub-actions.ts:298-312 | the untagged page of the organisation "-" normalises to host/orgs/package with the image as its tag |
| DockerReference.PrintThenParse | src/app/docker-hub-actions.ts:80-118 | parsing docker.io/namespace/repository:tag gives the image back if and only if no part is empty, repository and tag hold no slash, and the tag holds no colon |
| DockerReference.ParsedIsHubImage | src/app/docker-hub-actions.ts:103-117 | everything the parser returns is such an image |
| DockerReference.ParseThenPrint | src/app/docker-hub-actions.ts:161 | printing a parsed image and parsing it again changes nothing |
| DockerReference.ParseAgreesWithHost | src/app/docker-hub-actions.ts:62-118 | a reference with a slash parses if and only if the classifier names a Docker Hub host, in any case, and namespace, repository and tag are not empty |
| DockerReference.DefaultedHostParses | src/app/docker-hub-actions.ts:77-118 | when the host defaults to docker.io, only an empty repository or tag prevents a parse |
| DockerReference.LastSegmentReads | src/app/docker-hub-actions.ts:103-117 | the last segment splits at its last colon, and without one the tag is "latest" |
| DockerReference.RegistryExactly | src/app/docker-hub-actions.ts:62-78 | the registry is the first segment when it is "localhost" or holds a dot or a colon, else Docker Hub, and an error when it is empty |
| DockerReference.HubHostsAgree | src/app/docker-hub-actions.ts:89-101 | the same image is read behind each of the three Docker Hub hosts, in any case of letters |
| DockerReference.OtherRegistryIsRefused | src/app/docker-hub-actions.ts:89-101 | any other registry host is refused |
| DockerReference.TagsAgree | src/app/docker-hub-actions.ts:104-110 | the tag the normaliser sets off is the tag the parser reads if and only if no slash follows the last colon |
| Base64.RoundTrip | src/components/ca-cert-field.tsx:21-24 | decoding the base64 of any bytes, section 4 of RFC 4648, gives the bytes |
| Base64.DigitsAre | src/components/ca-cert-field.tsx:21-24 | the 64 digits in their order |
| Base64.EncodeThree | src/components/ca-cert-field.tsx:21-24 | three bytes become the four digits that stand for their 24 bits, followed by the encoding of the rest |
| Base64.EncodeTwo | src/components/ca-cert-field.tsx:21-24 | two bytes at the end become three digits, of bits filled up with zeros, and one "=" |
| Base64.EncodeOne | src/components/ca-cert-field.tsx:21-24 | one byte at the end becomes two digits and "==" |
| Certificates.SplitColumns | src/components/ca-cert-field.tsx:25-28 | the slicing loop computes the columns |
| Certificates.ChunksAreColumns | src/components/ca-cert-field.tsx:25-28 | the columns concatenate to the text, all but the last hold 64 characters, and the last is not empty |
| Certificates.ReadCertFiles | src/components/ca-cert-field.tsx:11-36 | the loops compute the newline-joined PEM of every file, kept when it has a marker and wrapped otherwise |
| Certificates.PemRoundTrip | src/components/ca-cert-field.tsx:21-31 | removing the frame and newlines and decoding gives back the bytes of every wrapped file |
| Certificates.FileBecomes | src/components/ca-cert-field.tsx:11-36 | a file with the marker anywhere is taken over as its trimmed text; any other is wrapped so that its bytes can be read back |
| Certificates.WrappedLines | src/components/ca-cert-field.tsx:29-31 | a wrapped file is exactly the two frame lines around the columns of its encoding |
| Certificates.AppendedText | src/components/ca-cert-field.tsx:64-69 | an upload replaces a blank field, and else comes on a new line after its trimmed text |
| Certificates.CountJoin | src/components/ca-cert-field.tsx:55-57 | the number of markers adds up over text joined by a newline |
| Certificates.WrappedCountsOne | src/components/ca-cert-field.tsx:29-31 | a wrapped file counts as one certificate |
| Certificates.CountTrim | src/components/ca-cert-field.tsx:19 | trimming loses no marker |
| Certificates.UploadAddsUp | src/components/ca-cert-field.tsx:64-69 | after an upload the count shown is the old count and the counts of the files |
| Certificates.NoFileIsLost | src/components/ca-cert-field.tsx:14-35 | every uploaded file adds at least one to the count |
| UserGroups.ParseSiteAccess | src/app/group-management-actions.ts:278-305 | the two loops compute the site access of a form |
| UserGroups.SiteAccessExactly | src/app/group-management-actions.ts:283-301 | a permission on a site is listed if and only if the site's switch reads "true", its id can be captured and some piece of its field trims to that site permission |
| UserGroups.SiteAccessWellFormed | src/app/group-management-actions.ts:281-301 | the entries have distinct sites, non-empty lists and site permissions only |
| UserGroups.Stores.CreateGroup | src/app/group-management-actions.ts:61-101 | the action appends the described group if and only if every guard passes, and changes nothing else |
| UserGroups.Stores.UpdateGroup | src/app/group-management-actions.ts:118-166 | the action replaces the group with that id if and only if every guard passes, and changes nothing else |
| UserGroups.Stores.DeleteGroup | src/app/group-management-actions.ts:184-201 | the action removes the group with that id if and only if the actor could grant it |
| UserGroups.Stores.UpdateUserGroups | src/app/group-management-actions.ts:219-261 | the action sets the user's groups and stored role if and only if every guard passes, and changes no other user |
| GroupMeaning.CreateExactly | src/app/group-management-actions.ts:61-101 | a group is created if and only if a manager asks for a free name and for nothing beyond the own rights; it comes last, gives exactly what the form asks for, and nothing else changes |
| GroupMeaning.UpdateExactly | src/app/group-management-actions.ts:118-164 | the same for an update, which must also be allowed on the group as it is; the group keeps its place and id |
| GroupMeaning.DeleteExactly | src/app/group-management-actions.ts:184-201 | a group is deleted if and only if a manager may give it; the others stay in order |
| GroupMeaning.UnknownGroupChangesNothing | src/app/group-management-actions.ts:127-131 | an update or deletion of a group that does not exist changes nothing |
| GroupMeaning.MembershipExactly | src/app/group-management-actions.ts:219-261 | a membership is set if and only if an admin acts, or a manager on another user who is no admin, as to groups the actor may give; the user is then in exactly the named groups that exist, and stored as an admin if one of them is an admin group |
| GroupMeaning.MembershipGives | src/app/group-management-actions.ts:234-261 | the user then has exactly what the named groups give |
| GroupMeaning.CanGrantExactly | src/app/group-management-actions.ts:33-51 | an admin may give every group, anyone else exactly those that are no admin groups and list only what the actor has |
| GroupMeaning.OnlyManagersAct | src/app/group-management-actions.ts:66-67 | an action by someone who is no admin and lacks manage-groups changes nothing |
| UserGroups.ActionStaysWithinActor | src/lib/auth.ts:998-1010 | one action changes nobody's hold of a grant, or of admin rights, that is beyond its actor |
| UserGroups.RunStaysWithinActors | src/app/group-management-actions.ts:33-51 | no run by a coalition of non-admins, however long, changes who holds a grant that none of them holds |
| UserGroups.RunKeepsAdmins | src/app/group-management-actions.ts:32-39 | no run of non-admin actions changes who is an admin or who belongs to some admin group |
| UserGroups.RunKeepsSiteAccess | src/lib/user-groups.ts:215-232 | a site no acting non-admin can open stays open to exactly the same users |
| UserGroups.OpeningMeansPermission | src/lib/user-groups.ts:215-232 | without empty entries, opening a site is holding some permission on it |
| UserGroups.StoredAdminOutlivesGroups | src/lib/auth.ts:649-651 | a user stored as admin stays one through every run that does not set that user's membership |
| UserGroups.AdminOutlivesDeletedGroup | src/lib/auth.ts:1036-1037 | in every store with an admin group, an admin can put a user into it and delete it, and the user stays an admin in no admin group |
| UserGroups.DeletionWithdrawsExactly | src/app/group-management-actions.ts:196-201 | a deletion withdraws admin rights if and only if the user is no stored admin and the deleted group was that user's only admin group |
| UserGroups.MembershipDecidesAdmin | src/lib/auth.ts:1024-1041 | setting a membership makes the user an admin if and only if an admin group is among the groups set |
| UserGroups.RunKeepsInvariant | src/app/group-management-actions.ts:80-101 | along every run ids and case-blind names stay unique, and every group a form touched is trimmed, within the allowed permissions, and without permissions when it is an admin group |
| UserGroups.SeededAdminIsNotWellFormed | src/lib/user-groups.ts:254-290 | the seeded admin group carries explicit permissions and so is the exception; the operator group is not, and gives every site permission on every known site |
| Optimizer.FindBest | src/lib/load-balancer/optimizer.ts:117-156 | the nested loops find the first feasible move with the lowest projected imbalance, or none when no move is feasible |
| Optimizer.ComputePlan | src/lib/load-balancer/optimizer.ts:99-179 | the search takes the best move while it gains the minimum, up to the maximum; memory is conserved, repelled guests are kept apart, no target is overfull in memory or disk, and the total gain is at least the minimum for each move |
| Optimizer.MoveIsAllowed | src/lib/load-balancer/optimizer.ts:99-150 | every moved guest runs, is not exempt and leaves no affinity partner; its target is another known node with CPU below 90 percent, room for 1.2 times its memory and 1.1 times its disk at that moment, and nobody there it repels; the move gains at least 0.005 |
| Optimizer.LowestIsTaken | src/lib/load-balancer/optimizer.ts:117-156 | no move allowed at that moment, by the same conditions, projects a lower imbalance than the one taken |
| Optimizer.NothingLeftToGain | src/lib/load-balancer/optimizer.ts:158 | a plan shorter than the limit leaves no allowed move that would gain 0.005 |
| Optimizer.MoveTakesEffect | src/lib/load-balancer/optimizer.ts:160-168 | a move takes the guest's memory from source to target, its disk from the target, changes its position, and the guest is not moved again |
| Optimizer.SearchStartsAsGiven | src/lib/load-balancer/optimizer.ts:72-111 | the search starts from the nodes and positions as they are |
| Optimizer.MovableInOrder | src/lib/load-balancer/optimizer.ts:99-120 | guests are tried in the order given, which decides between equal moves |
| Rebalance.PlanFor | src/lib/load-balancer/optimizer.ts:70-108 | the plan for a cluster moves only running guests that are not excluded, ignored, pinned, nor containers unless included, between nodes not excluded nor in maintenance; affinity groups sharing a node stay, and a moved guest ends apart from its anti-affinity group |
| Rebalance.ExemptExactly | src/lib/load-balancer/guest-rules.ts:15-25 | a guest is exempt if and only if it is excluded, carries an ignore or pin tag, or is a container when containers are not included |
| Rebalance.AffinityExactly | src/lib/load-balancer/guest-rules.ts:27-31 | two guests share affinity if and only if they share a tag with the affinity prefix and not the anti-affinity prefix |
| Rebalance.AntiAffinityExactly | src/lib/load-balancer/guest-rules.ts:33-35 | they repel each other if and only if they share a tag with the anti-affinity prefix |
| Rebalance.NodesForExactly | src/lib/load-balancer/optimizer.ts:70-74 | a node takes part if and only if it is neither excluded nor in maintenance |
| Optimizer.PlanIsUnique | src/lib/load-balancer/optimizer.ts:117-179 | that description determines the moves and the final projection |
| Optimizer.StepSound | src/lib/load-balancer/optimizer.ts:133-167 | taking any feasible move keeps every guarantee of a plan |
| Optimizer.TakenConserves | src/lib/load-balancer/optimizer.ts:146-168 | trying and undoing a move, then taking it, projects the measured imbalance and conserves the cluster's memory |
| Optimizer.AffinityKept | src/lib/load-balancer/guest-rules.ts:62-75 | running guests of one affinity group on one node are not separated by any plan |
| PlanStore.RebalanceStore.ApplyPlan | src/app/lb-actions.ts:218-227 | the stored draft with that id becomes active, and only then or when it already was is the action accepted |
| PlanStore.RebalanceStore.MarkCancelled | src/app/lb-actions.ts:278-286 | the transaction cancels the plan with that id and skips exactly its queued moves |
| PlanStore.RebalanceStore.CancelPlan | src/app/lb-actions.ts:271-302 | an active plan with that id is cancelled, another one with that id is cleared, and anything else is left alone and refused |
| PlanStore.RebalanceStore.ComputePlan | src/app/lb-actions.ts:131-184 | an active plan refuses; otherwise the store is cleared for no moves and replaced by a queued draft for some |
| PlanStore.RebalanceStore.RecordOutcome | src/lib/load-balancer/observer.ts:97-103 | the outcome is written to the first move of that guest in the plan with that id, and to nothing else |
| PlanLoss.PerformIsTheObject | src/app/lb-actions.ts:130-302 | the store object's compute, cancel and apply are the protocol's actions that nothing overtakes |
| PlanProtocol.StepKeepsInv | src/lib/load-balancer/observer.ts:86-236 | every event, with any number of ticks under way, failed writes and lost answers included, keeps the invariant that ties each tick's copy, the stored plan and the actions under way |
| PlanProtocol.RunKeepsInv | src/lib/load-balancer/plan-store.ts:63-92 | the invariant holds in every reachable state of every interleaving |
| PlanTheorems.StepMovesOn | src/lib/load-balancer/observer.ts:89-222 | one event moves a stored plan's status only forward and sends no move back to the queue |
| PlanTheorems.EndedForGood | src/app/lb-actions.ts:277-286 | a plan once cancelled or completed is never again stored as draft or active nor with a queued move |
| PlanOutcomes.PollRecords | src/lib/load-balancer/observer.ts:89-104 | a polled migration that has ended is stored as done with no error, or as failed with the task's message, and nothing else of the plan changes |
| PlanOutcomes.PollGoesOn | src/lib/load-balancer/observer.ts:89-116 | the tick's own copy says the same whether or not the store could be written, and the tick polls the next move |
| PlanOutcomes.StartsExactly | src/lib/load-balancer/observer.ts:118-171 | a migration starts if and only if a tick has polled every move, its count with the others is below the cap, a move is queued, and the task id is new |
| PlanOutcomes.LaunchRuns | src/lib/load-balancer/observer.ts:118-171 | the first queued move is the one started, its task runs, and the store does not know it yet |
| PlanOutcomes.ChooseRecords | src/lib/load-balancer/observer.ts:144-200 | a move that cannot go is stored as skipped with the reason, one whose start fails as failed with the message |
| PlanOutcomes.RecordStores | src/lib/load-balancer/observer.ts:166-200 | the record of a start stores the move as migrating under its task; when it fails the move is stored as failed |
| PlanOutcomes.FinishCompletes | src/lib/load-balancer/observer.ts:216-222 | a finishing tick completes the stored plan if and only if no move of its copy is queued or migrating |
| PlanOutcomes.CancelStores | src/app/lb-actions.ts:277-286 | a cancel marks the plan cancelled and its queued moves skipped, and leaves every other move |
| PlanOutcomes.EveryWriteIsKnown | src/lib/load-balancer/observer.ts:86-222 | whatever one event changes about a stored move is what that event has reason to write |
| PlanOutcomes.EveryOutcomeWasWritten | src/lib/load-balancer/observer.ts:86-222 | over every run, what the store says of a move was there at the start, or an event of the run wrote that very outcome, or the move is still queued |
| PlanOutcomes.DoneWasReported | src/lib/load-balancer/observer.ts:92-96 | in every run a move is shown as done only if a poll found its task ended with success |
| PlanCap.CapIsKept | src/lib/load-balancer/observer.ts:118-171 | in every run in which ticks do not overlap and every end a tick learns of is stored, the stored plan shows at most the configured number of migrations |
| PlanCap.RulesKeepTheCap | src/lib/load-balancer/observer.ts:118-171 | for the plan's step alone: in every run that obeys three rules, no start of the plan puts more of its migrations in flight than the cap leaves beside the given number of others |
| PlanOverlap.OverlappingTicksOverrun | src/lib/load-balancer/observer.ts:612-697 | for every cap a run that breaks only the rule on overlapping ticks: the delayed tick starts a move beyond the cap, and the stored plan shows two migrations |
| PlanOverruns.DroppedPlanOverruns | src/app/lb-actions.ts:131-184 | for every cap a run that breaks only the rule on dropping a plan at work: a new plan starts a migration beside the cancelled plan's |
| PlanOverruns.UnrecordedStartOverruns | src/lib/load-balancer/observer.ts:165-179 | for every cap a run that breaks only the rule on recording starts: the same move is started twice |
| PlanOverruns.UnstoredEndShowsTwo | src/lib/load-balancer/observer.ts:89-116 | for every cap a run that breaks only the rule on storing ends: the stored plan shows two migrations although one runs |
| ClusterCap.SixRulesKeepTheCap | docs/load-balancer.md:38 | after every run that meets the six rules, whatever actions, ticks, plan steps, single starts and ends are interleaved, the migrations in flight in the cluster are at most the cap |
| ClusterCap.StepKeepsCluster | src/lib/load-balancer/observer.ts:436-467 | every step that meets the rules keeps what ties the count of each tick, its budget and the plan to the migrations that run |
| ClusterCounts.TickGetsTheRoomLeft | src/lib/load-balancer/observer.ts:436-467 | a tick that has checked every single migration it watches counts exactly those that run, and without an active plan may start exactly as many as the cap leaves |
| ClusterCounts.RunWatchesOnce | src/lib/load-balancer/observer.ts:540-549 | no run watches one migration twice, which that count rests on |
| ClusterCounts.DoneLeaves | src/lib/load-balancer/observer.ts:449-467 | after a finished step the tick may start what the cap leaves beside the count and the moves migrating in the step's copy |
| ClusterCounts.ThrownLeaves | src/lib/load-balancer/observer.ts:446-467 | a step that throws is counted as if the plan had nothing in flight |
| ClusterCounts.FailedStartLeaves | src/lib/load-balancer/observer.ts:165-200 | a start recorded as failed still counts in its tick only when it was answered and its record failed |
| ClusterCounts.StartsUseTheBudget | src/lib/load-balancer/observer.ts:533-597 | a single migration starts only within the tick's budget, a failed request uses it up as well, and only an answered start is watched |
| ClusterRuns.OverlapExceeds | src/lib/load-balancer/observer.ts:612-697 | for every cap a run that breaks only the rule on overlapping ticks exceeds it: two ticks count the same migrations |
| ClusterRuns.CancelExceeds | src/lib/load-balancer/observer.ts:86-87 | for every cap a run that breaks only the rule on ending an active plan exceeds it: a cancelled plan's migration is not counted |
| ClusterRuns.FailedStepExceeds | src/lib/load-balancer/observer.ts:446-467 | for every cap a run that breaks only the rule on steps cut short exceeds it: a tick that cannot read the plan counts none of its migrations |
| ClusterRuns.UnrecordedExceeds | src/lib/load-balancer/observer.ts:158-171 | for every cap a run that breaks only the rule on recording starts exceeds it: the next tick starts the same move again |
| ClusterRuns.LostAnswerExceeds | src/lib/load-balancer/observer.ts:158-200 | for every cap a run that breaks only the rule on answered starts exceeds it: the move is recorded as failed while its migration runs, and the same tick starts a single migration |
| ClusterRuns.ForgottenExceeds | src/lib/load-balancer/observer.ts:598-601 | for every cap a run that breaks only the rule on forgetting exceeds it: a single migration whose entry has expired is not counted |
| PlanLaunches.LateLaunchesBounded | docs/load-balancer.md:79 | once a plan has ended, each tick that could still start one of its moves starts at most one, and no later tick any |
| PlanLaunches.LateLaunchesReached | src/lib/load-balancer/observer.ts:119-171 | in some continuation each of those ticks does |
| PlanLaunches.LateLaunch | src/lib/load-balancer/observer.ts:119-171 | a concrete run with a start after the cancel |
| PlanLaunches.CancelStopsPlanExactly | docs/load-balancer.md:79 | after a cancel no move of the plan is ever started, in any continuation, if and only if no tick could start one at that moment |
| PlanTheorems.CancelledPlanIsFrozen | src/lib/load-balancer/observer.ts:86-87 | once a plan is cancelled and no tick holds it, it never changes while it is stored, in any run |
| PlanLoss.LostExactlyWhenOvertaken | src/app/lb-actions.ts:131-163 | an active plan disappears if and only if a compute that stores or a cancel that clears writes, and then it was applied after that action's read |
| PlanLoss.OvertakenCancelClearsActive | src/app/lb-actions.ts:271-299 | a concrete interleaving in which a cancel that saw the draft clears the active plan |
| PlanLoss.AtomicRunKeepsActive | src/app/lb-actions.ts:131-138 | when compute and cancel are not overtaken, no run replaces or clears an active plan |
| PlanLoss.OvertakenComputeReplacesActive | src/app/lb-actions.ts:131-163 | a concrete interleaving in which a compute replaces the active plan by its draft, or clears it when there are no moves |
| PlanTheorems.CancelledTurnsCompletedExactly | src/lib/load-balancer/observer.ts:216-222 | a cancelled plan turns into a completed one if and only if a tick finishes whose older copy of it has nothing unresolved |
| PlanTheorems.CancelledCanEndCompleted | src/lib/load-balancer/observer.ts:119-222 | a concrete run in which it does |
| Recreate.Host.RecreateFromTemplate | src/app/proxmox-actions.ts:1121-1221 | the action sends exactly the events of its log and leaves the container they lead to |
| Recreate.SentIsPrefix | src/app/proxmox-actions.ts:1165-1221 | the requests sent are a prefix of stop if running, delete, create, environment if there is one, start if it was running |
| Recreate.SentAfterFinished | src/app/proxmox-actions.ts:1168-1203 | a request goes out only after every earlier one, the environment aside, was reported finished |
| Recreate.DeleteSentExactly | src/app/proxmox-actions.ts:1125-1172 | the deletion is sent if and only if the form is complete, the template exists, the container does and its configuration or status could be read, and, if its status says that it runs, the stop is reported finished |
| Recreate.NothingSent | src/lib/proxmox.ts:3121-3123 | a container of which nothing could be read is left alone |
| Recreate.SentExactly | src/app/proxmox-actions.ts:1165-1221 | the whole sequence of requests for every pattern of results |
| Recreate.LostExactly | src/app/proxmox-actions.ts:1167-1200 | the container is gone if and only if the deletion was sent and took effect and no creation did, whether reported or not |
| Recreate.CreateSentExactly | src/app/proxmox-actions.ts:1167-1200 | the creation is sent if and only if stop, if any, and deletion are reported finished |
| Recreate.LostReportLoses | src/lib/proxmox.ts:3455-3471 | one lost status report of a deletion that succeeds leaves no container and no creation sent |
| Recreate.RestoreExactly | src/app/proxmox-actions.ts:1204-1209 | writing back the text read restores the stored entries if and only if there are none or all have word keys and one-line values |
| Recreate.SuccessKeeps | src/lib/proxmox.ts:3105-3126 | when every step succeeds the name is kept, and running state and environment are kept if and only if the conditions named in the lemma hold |
| Navigation.ThreeRedirectsSuffice | src/app/layout.tsx:61-98 | from every path, through proxy, layouts, guards and pages, every chain renders after at most three redirects if and only if there is no session or some site is enabled |
| Navigation.TwoRedirectsSuffice | src/lib/site-redirect.ts:35-47 | two are enough from every path if and only if a session has access and some site is enabled, and before the first user exists no site is enabled |
| Navigation.NoAccessTakesThree | src/lib/site-redirect.ts:22-40 | a session without access that opens /alerts needs three redirects when some site is enabled |
| Navigation.NoUserTakesThree | src/lib/page-guard.ts:9-13 | before the first user exists, with an enabled site, a page with a dot in its name needs three redirects |
| Navigation.ShortcutLeadsToOpenSite | src/lib/site-redirect.ts:9-33 | a page without a site leads to a site's page if and only if some enabled site is open to the visitor, and then to one that is |
| Navigation.LandingRenders | src/app/sites/[siteSlug]/layout.tsx:18-37 | the site a session without access is sent to is one whose layout renders for it |
| Navigation.RedirectComesNearer | src/proxy.ts:11-39 | outside the looping case every redirect lowers a distance of at most three |
| Navigation.AnonymousSeesPublicPages | src/app/layout.tsx:61-98 | without a session, once a user exists, a page is shown if and only if it is one of the four public ones |
| Navigation.BeforeSetupOnlySetup | src/app/layout.tsx:64-66 | before the first user exists only the setup page is shown |
| Navigation.SessionSees | src/app/sites/[siteSlug]/layout.tsx:18-37 | with a session, which pages are shown, by an if-and-only-if over every path; a page below an enabled site only if the session may open the site |
| Navigation.ProxyStopsExactly | src/proxy.ts:11-39 | without cookie and token every path the proxy does not let through is answered by the login page |
| Navigation.ClosedSiteLeadsOn | src/lib/page-guard.ts:20-26 | from a site it may not open a session is sent to the first one it may, or home |
| Navigation.SitePageAnswers | src/lib/page-guard.ts:14-28 | what a page below a disabled or an open site answers to a session |
| Navigation.OtherPageAnswers | src/app/users/page.tsx:10-18 | every other page may send a session home only when it is no admin |
| Navigation.ResolvesExactly | src/lib/site-redirect.ts:9-33 | which site a page that leads on leads to: the one used last, the first open one, the default, the first enabled one |
| Navigation.ShortcutsExactly | src/app/deployments/[id]/page.tsx:1-12 | which paths lead on |
| Navigation.LoopsForever | src/app/page.tsx:22-26 | with a session and no enabled site, no number of redirects from the home or setup page is enough |

## Left out

- ClusterCap.SixRulesKeepTheCap: the cap stays the same along a run; migrations that nobody but an operator starts are not the balancer's and are not counted; which guests single migrations move, and where, is left open.
- PlanOutcomes.ChooseRecords: whether a move can go (its guest still runs on its source and its target has room, observer.ts:124-142) and what the message of a failure says come with each event.
- PlanCap.RulesKeepTheCap: speaks of the plan's own migrations beside a given number of others; ClusterCap.SixRulesKeepTheCap is the cluster-wide statement.
- PlanCap.CapIsKept: speaks of what the store shows, and only of runs that obey its two rules; outside them it is false.
- PlanProtocol.StepKeepsInv: a store file that cannot be read counts as an empty one (plan-store.ts:43-55), so a transaction at that moment erases the plan; this fault is a step of ClusterCap, not an event here.
- BulkEnv.StoredEntriesSurviveExactly: is about containers whose entries have word keys and one-line values; EveryKeySurvivesExactly is about all of them.
- Optimizer.ComputePlan: numbers are exact reals, the imbalance is an arbitrary function of the nodes' loads instead of the coefficient of variation with its square root, and scores are not rounded; memory and disk figures of guests are not negative.
- RateLimiter.SlidingBoundIsSharp: with a window of one millisecond an interval of one window holds a single instant, so the bound is lower there.
- RateLimiter.Limiter.Check: a clock that is set back is not modelled.
- OciReference.ResultIsCanonical: lower case is ASCII lower case here and everywhere else, for group names too; Unicode case mapping is left out.
- Navigation.ThreeRedirectsSuffice: which of the remaining pages insist on a login or an administrator is left open, each may; query strings are dropped; nothing changes while the browser follows redirects.
- Recreate.SuccessKeeps: virtual machines, and the parameters of the create request other than the host name, are left out.
- Recreate.DeleteSentExactly: the session and permission checks before the form is read are left out.
- UserGroups.RunKeepsInvariant: slugs, descriptions, timestamps, audit entries, the actions' own rate limit, sessions by API token and the other actions that change users are left out; each action is one atomic step, although the code reads the list of groups before it writes.
- Certificates.ReadCertFiles: the UTF-8 decoding of a file is a parameter beside its bytes.
- BulkEnv.BulkSetEnv: the choice of members by tag or id, and the message, are left out.
- EnvEditor.Field.AddEntry: drag and drop and resetting the form are left out.
- The two slug functions, hostname prefixes, pagination, clamps and field validation are out of scope.
- Node scoring, hysteresis, forecasts and the choice of guests for single migrations are out of scope: numeric heuristics without a stated law.
- Authentication, LDAP, OIDC, SSH, webhooks, geocoding, backups and rendering are out of scope: input and output.
- Nothing was executed.
