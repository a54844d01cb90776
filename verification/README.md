# Agora OS: a verified model of its service cores

Agora OS runs agents on a Linux desktop behind a handful of services: a compositor
bridge that mediates between a compositor plugin, clients and agents; an event bus; an
audit stream; a shell with themes, layouts and an application catalog; and a supervisor
that leases workers. This project models the parts of those services that keep state or
transform text and geometry, and proves what they keep.

Each module follows one component. An object that the source updates in place is a
class whose methods change fields; each method's new state is given by a specification
function, and the run-wide properties are lemmas over sequences of those functions. A
critical section of a mutex is one step, except that launches waiting for their surfaces
share a read lock, so the look and the write of each are two steps. Where Go walks a
map, the method picks keys in an arbitrary order, so its contract holds for every order.

- `Policies`, `Launches`, `Placement`, `Outputs`, `Tags`: five groups of fields of the one
  bridge object, each with its own methods and runs; `LaunchWalks` on the order of its
  map walks. A send to the plugin arrives, is lost
  with an error, or arrives although an error is reported.
- `Bus`, `Topics`, `MailScope`, `Decimal`: the event bus with its provenance rules, and agent-message
  addressing over decimal uids.
- `Theme`, `ThemeSafety`: the theme style-sheet sanitizer.
- `AuditRing`: the audit broker's ring buffer and its hand-over to the live stream.
- `Geometry`: zones, tiles and overlaps.
- `Exec`, `Catalog`, `DesktopImport`, `CatalogLoad`: desktop entries on their way into the
  application catalog.
- `Png`, `PngCompare`: reconstruction and comparison of screenshots.
- `A11y`: the semantic projection of accessibility trees.
- `Leases`: the worker lease store with its budget and reuse checks.
- `Text`, `Sorting`, `Ordering`, `Arith`: what the others share.
- `PolicyLaws`, `LaunchLaws`, `PlacementLaws`, `TagLaws`, `BusLaws`, `AuditLaws`, `ThemeLaws`, `LayoutLaws`, `ExecLaws`,
  `CatalogLaws`, `DesktopLaws`, `PngLaws`, `A11yLaws`, `LeaseLaws`: what the specification functions
  behind those runs and round trips must say on every input, in constants and fields spelled
  out, so that no theorem rests on a definition alone.

Where the code does not meet what its design or documentation suggests, the model keeps
the code and states exactly when the property holds:

- A scoped agent-message pattern alone does not match well-formed topics only
  (`Topics.OnlyWellFormedIffNoWildcard`); together with the publish check it does
  (`Topics.PublishedMatchIsAddressed`).
- The check on agent-message subscriptions only looks at patterns that spell the prefix
  out, so a wildcard in its place brings in other clients' messages
  (`MailScope.HoldsOwnMailIff`).
- A surface can be placed under a tag that does not list it, when assignments overlap
  (`Tags.ListedIffNoOverlap`).
- Destroying a session does not keep its launches out for good
  (`Launches.LaunchPresentIff`).
- The derived policy goes stale when a refresh reports another uid
  (`Policies.RefreshKeepsPolicyIff`) and a move finishing after an unmap revives the surface
  (`Policies.LateMoveKeepsPolicyIff`).
- The exec lexer does not undo the shell quoter on empty arguments or backslashes
  (`Exec.RoundTripIff`): a backslash is an escape for the lexer even inside single quotes.
- Merging catalogs is not associative in the version number of unversioned overlays
  (`Catalog.MergeAssociativeIff`).
- The reuse rule is documented as asking for the same session, network policy and runtime.
  It asks for the session only without a lease-scoped policy
  (`Leases.ReuseKeepsSessionIff`), and compares the other two with nothing
  (`Leases.ReuseSeesOnlyBlanks`).
- A surface's binding can pass from one waiting launch to another without being released
  (`Launches.TwoWaitsRebind`); the exact condition is `Launches.FixedIffUnthreatened`.
- Unsafe fragments are screened in property values but not in property names
  (`ThemeSafety.UnsafeOnlyInNames`).

Run `dafny verify dfyconfig.toml` to check everything.

## Model

Rows that begin with "Main" are the theorems about whole runs, transformations and
round trips. The rows after them are their supporting results; lemmas of the `Laws` modules
that only read one step entry by entry have no row. The last group of rows,
beginning with "Step", ties the methods of the classes to the steps those runs are made of.

| member | source | states |
|---|---|---|
| `Policies.CacheAgrees` | internal/compositor/bridge.go:4258-4306 | Main: in every run of installs, clears, syncs, manual edits, grants, revokes, surface events, exits and moves, late ones included, with any pattern of failed sends, an installed plugin that completed its sync and had no failed send since holds exactly the bridge's policy map and input context |
| `Policies.SyncRestoresInRuns` | internal/compositor/bridge.go:4274-4295 | Main: after any run, however many sends failed, one sync whose two messages arrive brings the installed plugin back into agreement |
| `Policies.ThreeAnswersAgree` | internal/compositor/bridge.go:4322-4376 | Main: for a tracked surface that is not layer-shell, after any run with a fixed uid and kind, no manual edit of its policy and no late move of it: the replayed grant log, the access check and the derived policy's owner and allow lists give one answer for pointer and keyboard |
| `Policies.LateMoveKeepsPolicyIff` | internal/compositor/bridge.go:2738-2752 | Main: a move that finishes late keeps policy and surface in step if and only if the surface was still tracked; otherwise it revives a record owned by uid 0 without a policy |
| `Launches.BindingsNeverDangle` | internal/compositor/bridge.go:775-850 | Main: in every run each bound surface is tracked and bound to a known launch |
| `Launches.FixedIffUnthreatened` | internal/compositor/bridge.go:700-716 | Main: in every reachable state a binding is fixed until its surface is unmapped, its session destroyed or its layer-shell launch exits, if and only if no waiting launch of another id has chosen the surface and not yet written; with no wait pending every binding is fixed |
| `Launches.DestroyLeavesNothing` | internal/compositor/bridge.go:353-371 | Main: after a session is destroyed nothing refers to its launches and every other binding stays |
| `LaunchWalks.OrderMattersIff` | internal/compositor/bridge.go:817-850 | Main: two ways of walking the launches, each of them met once, associate a surface differently if and only if it is unbound and two open launches own its process |
| `LaunchWalks.AssociatedIffWalked` | internal/compositor/bridge.go:817-850 | Main: the outcomes of associating a surface are exactly those the two loops reach in some order of the launches |
| `Launches.LaunchPresentIff` | internal/compositor/bridge.go:353-371 | Main: in every run a launch of a session is in the table if and only if it was started and its session not destroyed since; a start is not refused because the session is gone |
| `Launches.ProcessDescendsFrom` | internal/compositor/bridge.go:862-882 | Main: true if and only if some number of steps up the parent table leads from the process to the ancestor, cycles in the table included |
| `Placement.ProtocolSafety` | internal/compositor/bridge.go:2755-2828 | Main: in every run request ids differ, a waiter is registered exactly until its request returns, at most one response is buffered, and whatever is buffered or under way carries the request's own id |
| `Placement.SuccessMeansPlaced` | internal/compositor/bridge.go:2755-2828 | Main: a placement with read-back has succeeded if and only if some step of the run completed it: a response or a tick that met it waiting while the tracked geometry was within 2, 2, 8 and 16 pixels of its target |
| `Placement.AwaitFollowsProtocol` | internal/compositor/bridge.go:2771-2809 | Main: from any state in which a request waits, wake-ups that decide nothing leave it waiting, and the first that decides gives it the phase the loop's outcome says |
| `Bus.QueuedEventsAreTrusted` | internal/bus/server.go:40-104 | Main: in every run of a strict broker each queued event has a source connection; privileged topics and delegated stamps came only from uid 0; peer stamps are the connection's uid; agent messages agree on topic, envelope, stamp if any and connection unless root's; only root holds escalation decisions and requests |
| `Bus.AgentMessagesAgree` | internal/bus/agent_message.go:12-42 | Main: strict broker or not, every queued agent message has a well-formed topic equal to its envelope's, and names its connection's uid unless that is root |
| `Bus.DeliveryIsFifo` | internal/bus/broker.go:110-134 | Main: what a client received followed by what is queued for it is an order-preserving subsequence of the matching events of others, and all of them while its channel was never full |
| `MailScope.HoldsOwnMailIff` | internal/bus/agent_message.go:44-59 | Main: for every accepted pattern, some run brings an agent message for somebody else to a client that subscribes to nothing else, if and only if the pattern's segments reach agent messages without fixing the recipient to the client |
| `MailScope.OwnMailOnly` | internal/bus/agent_message.go:44-59 | Main: in every run a client that asks for no such pattern holds only agent messages addressed to it |
| `Topics.ParseOfPrinted` | internal/schema/agent_message.go:35-62 | Main: a printed topic parses to its own uids and kind if and only if the kind is non-empty, dot-free and not the wildcard |
| `Topics.PrintOfParsed` | internal/schema/agent_message.go:39-62 | Main: re-printing any parsed topic gives it back |
| `Topics.OnlyWellFormedIffNoWildcard` | internal/bus/agent_message.go:44-59 | Main: an accepted scoped pattern matches well-formed topics only, if and only if neither its sender nor its kind segment is the wildcard |
| `Topics.PublishedMatchIsAddressed` | internal/bus/agent_message.go:12-59 | Main: any topic that passes the publish check and matches an accepted scoped pattern is well formed, addressed to the subscriber, and agrees with its envelope and publisher |
| `Theme.SanitizeIsFixedPoint` | internal/shellui/server.go:1585-1614 | Main: sanitizing a sanitized sheet changes no byte and gives no warning |
| `Theme.FixedPointsAreCleanSheets` | internal/shellui/server.go:1585-1614 | Main: a sheet is left alone if and only if it is a printed list of clean rules |
| `Theme.ReadUndoesPrint` | internal/shellui/server.go:1585-1614 | Main: printing clean rules and reading them back gives the same selectors and declarations |
| `ThemeSafety.UnsafeOnlyInNames` | internal/shellui/server.go:1684-1712 | Main: the printed sheet contains an unsafe fragment, in any letter case, if and only if the name of an accepted declaration does, counting its colon; values, selectors and joints never do |
| `AuditRing.StreamHasNoGap` | internal/audit/broker.go:112-142 | Main: while a subscriber stays and its channel never fills, its backlog and its stream are one contiguous suffix of the history, starting min(published, ring size) before it joined |
| `AuditRing.SuffixIffNoDrop` | internal/audit/broker.go:33-53 | Main: in every run a subscriber's backlog and stream are a contiguous suffix of the history if and only if no event ever met its channel full: a gap, once made, stays |
| `AuditRing.EveryEventIsAccountedFor` | internal/audit/broker.go:33-53 | Main: sent, queued and dropped lines together number exactly the events since the first one sent |
| `Tags.ListedIffNoOverlap` | internal/compositor/layout.go:95-182 | Main: in every run all managed placements are listed by their tags at all times, if and only if no assignment finishes after another of its tag that finished while it was under way, of a surface it had not read and that is still placed there |
| `Geometry.OverlapCountsCells` | internal/compositor/bridge.go:2993-3000 | Main: the overlap of two rectangles is the number of integer cells they share |
| `Geometry.ResolvedNeighbours` | internal/schema/layout.go:359-407 | Main: two resolved zones sharing an edge, without a maximum size, differ there by at most one pixel in both directions |
| `Geometry.DevLayoutPartitions` | internal/schema/layout.go:227-240 | Main: the built-in layout's zones resolve, and partition the region cell for cell, if and only if it is at least 2 by 2 |
| `Outputs.OutputsStayApart` | internal/compositor/bridge.go:2618-2703 | Main: after any sequence of create, destroy, resize and rescale the physical rectangles of different outputs are disjoint |
| `Outputs.GridIsTight` | internal/compositor/bridge.go:2914-2945 | Main: the grid has the least column count whose square holds all outputs, no more rows than columns and no empty last row |
| `Exec.RoundTripIff` | internal/appcatalog/desktop_import.go:444-495 | Main: the lexer undoes the joined quoter on a list of arguments if and only if every argument is non-empty and free of backslashes |
| `Catalog.ValidateIsIdempotent` | internal/appcatalog/catalog.go:200-255 | Main: validating a validated catalog accepts it and changes nothing |
| `Catalog.ValidateIgnoresOrder` | internal/appcatalog/catalog.go:253-254 | Main: two listings of the same entries are both accepted or both not, and validate to the same catalog |
| `Catalog.OverlayWins` | internal/appcatalog/catalog.go:187-196 | Main: after a merge every id is looked up in the overlay first and then in the base, duplicates included |
| `Catalog.EntriesAssociate` | internal/appcatalog/catalog.go:187-196 | Main: entries merge associatively, order included, for all lists |
| `Catalog.MergeAssociativeIff` | internal/appcatalog/catalog.go:177-198 | Main: merging whole catalogs is associative if and only if one overlay has a version or the base's is 0 or 1 |
| `DesktopImport.CandidateIdIsValid` | internal/appcatalog/desktop_import.go:322-336 | Main: whatever the file name, the id fits the id pattern, starts with desktop and ends in a letter or digit |
| `DesktopImport.ImportDesktopCandidates` | internal/appcatalog/desktop_import.go:115-167 | Main: scanned is emitted plus skipped and counts the distinct eligible paths; ids are strictly sorted; exactly the first importable file of each id is kept; the diagnostics are those of the looks, in order |
| `DesktopImport.DiagnosticsNameTheSkipped` | internal/appcatalog/desktop_import.go:115-167 | Main: of an import's diagnostics those of directories name exactly the unreadable ones, in order, and those of files name exactly the paths looked at that gave no candidate, each once, with the reason its import failed for or the id and path it duplicates |
| `CatalogLoad.InstalledDesktopCatalog` | internal/appcatalog/catalog.go:121-147 | Main: never rejected: one enabled entry for each candidate, in id order |
| `CatalogLoad.OverlayOfImport` | internal/appcatalog/desktop_import.go:169-181 | Main: the overlay of an import's candidates is never rejected: one disabled entry for each, in id order |
| `Png.DecodeOfEncode` | scripts/asha_agora_control_proof.py:139-171 | Main: for every image and every choice of filters 0 to 4 per row, decoding rows filtered as in section 6 of RFC 2083 returns the original bytes |
| `Png.FilterOfUnfilter` | scripts/asha_agora_control_proof.py:151-169 | Main: filtering a reconstructed row gives the coded bytes back, so decoding is one-to-one |
| `PngCompare.CountsAreDistances` | scripts/asha_agora_control_proof.py:217-222 | Main: changed pixels and channel delta are symmetric and obey the triangle inequality |
| `A11y.ProjectionKeepsOrder` | internal/compositor/a11y.go:59-83 | Main: in preorder and in postorder the projection lists the root and exactly the source's nodes that are not anonymous containers, relabelled |
| `A11y.ProjectionKeepsAncestors` | internal/compositor/a11y.go:59-83 | Main: each node of the projection lies below exactly those of its source's ancestors that are kept, in order |
| `A11y.ProjectTwice` | internal/compositor/a11y.go:59-83 | Main: projecting again changes only the recorded source roles |
| `A11y.SemanticRoleStays` | internal/compositor/a11y.go:85-119 | Main: every semantic role is its own semantic role once interfaces are cleared |
| `Leases.AtMostTwoChanges` | internal/supervisor/state.go:45-68 | Main: without a removal a lease keeps everything but its state, which changes at most as often as its rank allows: twice at most |
| `Leases.ExpireLowersCounts` | internal/supervisor/state.go:221-240 | Main: expiring lowers each session's count by exactly its share of the due leases |
| `Leases.BudgetHolds` | internal/supervisor/policy.go:216-227 | Main: a session whose running leases enter only through the budget check under one limit never exceeds it, in any run |
| `Leases.ReuseKeepsSessionIff` | internal/supervisor/policy.go:131-196 | Main: under a given profile every reuse keeps the session if and only if the profile is not lease-scoped or has a blank network policy or runtime |
| `PolicyLaws.AccessIsReplayed` | internal/compositor/bridge.go:4353-4376 | Main: after any run with a fixed uid and kind, no manual edit of its policy and no late move of it, every one of the three actions, reading pixels included, is allowed exactly to the owner and to agents whose replayed grant lists it, and any other action to nobody |
| `PolicyLaws.GrantTakesEffect` | internal/compositor/bridge.go:2546-2581 | Main: a grant on a tracked surface that asks for one of the actions and is logged must take effect: the agent may then do exactly what was asked for, whatever becomes of the send, and all others what they could before; in any other case nothing changes |
| `PolicyLaws.RevokeTakesEffect` | internal/compositor/bridge.go:2583-2608 | Main: a revoke of a present grant that is logged must take effect: the agent keeps only what it has as owner, and all others what they had; in any other case nothing changes |
| `PolicyLaws.AgreementLasts` | internal/compositor/bridge.go:4258-4306 | Main: after a completed sync the installed plugin agrees with the bridge after every further step, as long as it stays installed and messages arrive |
| `LaunchLaws.SeenBindsRunning` | internal/compositor/bridge.go:817-850 | Main: in every run, whatever a surface event binds its surface to is a launch that is running, was started no later than the event, and owns the process or announced the surface; a binding already there stays |
| `LaunchLaws.HintIsAmongRunning` | internal/compositor/bridge.go:817-850 | Main: with no such launch owning the process, an unbound surface is bound if and only if exactly one launch that is running, started no later and expects its app id or part of its title exists, and then to that one; exited launches do not count |
| `BusLaws.PublishAcceptedIff` | internal/bus/provenance.go:26-133 | Main: exactly the publishes a broker accepts: with strict provenance the six reserved families, spelled out, are refused to anyone but root and root's delegates, and every other topic that is no agent message is accepted from any peer |
| `BusLaws.SubscribeAcceptedIff` | internal/bus/provenance.go:105-133 | Main: exactly the subscriptions a broker accepts, in the same terms |
| `BusLaws.PublishStamps` | internal/bus/server.go:91-107 | Main: an accepted publish reaches every other subscriber with room, stamped with the uid root named for it as a delegate, or else with the publisher's own while it is registered |
| `ThemeLaws.CommentsDoNotMatter` | internal/shellui/server.go:1585-1628 | Main: the rules and warnings of a sheet with a comment are those of the sheet without it |
| `ThemeLaws.OneDeclaration` | internal/shellui/server.go:1585-1712 | Main: what becomes of a sheet with one selector and one declaration, for any name, value and white space: kept with its name in lower case, or dropped with the warning that says why |
| `PngLaws.ReconstructionLaw` | scripts/asha_agora_control_proof.py:151-169 | Main: the law of each of the five filters on every byte of a reconstructed row, without the predictor's own definition |
| `LayoutLaws.ResolveMeans` | internal/schema/layout.go:359-407 | Main: where a zone comes to lie and how large it is, or which error it gives, from its fractions, insets and constraints alone |
| `LayoutLaws.LaidMeans` | internal/compositor/bridge.go:2914-2945 | Main: where the output at each place of the name order is put, and how large |
| `ExecLaws.ParseOfWritten` | internal/appcatalog/desktop_import.go:444-495 | Main: every line built of plain characters, escaped characters and quoted stretches of either kind, with any white space between words, is read as the meanings of its words |
| `CatalogLaws.AcceptedIff` | internal/appcatalog/catalog.go:200-255 | Main: a catalog is accepted exactly when every entry meets the rules, read off its own fields, and trimmed ids differ |
| `DesktopLaws.CandidatesComeFromFiles` | internal/appcatalog/desktop_import.go:115-248 | Main: every candidate of an import comes from a file that was looked at, holds what that file says, and starts out disabled without a command |
| `A11yLaws.FirstWordDecides` | internal/compositor/a11y.go:85-119 | Main: the first of sixteen words found in a role decides, whatever the interfaces |
| `AuditLaws.WrittenIsMeant` | internal/audit/broker.go:112-142 | Main: in every run, lines written to a subscriber and lines waiting for it are, in this order, the end of the history when it joined and then every line published while fewer than 256 waited: a full channel turns the new line away and keeps what it holds |
| `Policies.SnapshotIsFaithful` | internal/compositor/bridge.go:4297-4306 | Loading the sorted snapshot gives back the policy map, whatever order the map was walked in |
| `Policies.RunGrounded` | internal/compositor/bridge.go:4076-4208 | The invariant behind it: in every such run the policy is the derived one for the recorded owner and grants, and the grants are the replay of the log since the last unmap |
| `Policies.RefreshKeepsPolicyIff` | internal/compositor/bridge.go:4076-4208 | A refresh keeps policy and owner in step if and only if the uid it reports is the uid on record |
| `Policies.AtMostOneFocused` | internal/compositor/bridge.go:4076-4208 | In every run at most one stored surface record is marked focused |
| `Policies.NormalizeMeaning` | internal/compositor/grants.go:56-77 | A normalised action list holds exactly the requested actions that can be granted, or all of them when none was requested, sorted and once each |
| `Policies.NormalizeViewportActions` | internal/compositor/grants.go:56-77 | The loop with its seen-set and sort gives the normalised list |
| `Launches.BindingsStayFixed` | internal/compositor/bridge.go:775-850 | In every run an unthreatened binding at one moment is the same later, unless released in between |
| `Launches.TwoWaitsRebind` | internal/compositor/bridge.go:700-716 | A run in which two waiting launches look at one surface before either writes, and the binding passes from the first to the second without a release |
| `Launches.StepBindings` | internal/compositor/bridge.go:775-850 | Each step ends exactly the bindings it releases, changes none that is not threatened, and threatens none that is bound |
| `LaunchWalks.FoundIffSearched` | internal/compositor/bridge.go:789-814 | The answers to the search for a launch's surface are exactly those the loop gives in some order of the surfaces, the empty id standing for no hint yet |
| `Launches.LaunchOutlivesSession` | internal/compositor/bridge.go:476-489 | A run that ends with a launch of a session destroyed before the launch was entered |
| `Launches.HintBindingIsExact` | internal/compositor/bridge.go:817-850 | A corollary of what associating promises: with no owning launch, a surface is bound by hint if and only if exactly one open launch matches, and then to that one |
| `Launches.RepeatsMeetNothingNew` | internal/compositor/bridge.go:862-882 | A walk up the process tree that comes back to a pid meets only pids it met before, so stopping there loses no ancestor |
| `Launches.SurfaceBelongsToLaunch` | internal/compositor/bridge.go:852-860 | Decides ownership by pid or descent |
| `Placement.IdsDiffer` | internal/compositor/bridge.go:2755-2770 | Ids made from a clock reading and a counter differ whenever the counters do, whatever the clock did |
| `Placement.RunOrderly` | internal/compositor/bridge.go:4037-4048 | The protocol's invariant over every run of requests, responses, ticks, deadlines and cleanups |
| `Placement.AwaitPlacement` | internal/compositor/bridge.go:2771-2809 | The wait loop returns at the first wake-up that decides it: success, failure or neither |
| `Bus.RunInvariant` | internal/bus/server.go:40-104 | The invariant behind it, kept by connect, message, disconnect and take |
| `Bus.Conservation` | internal/bus/broker.go:110-134 | Received followed by queued is exactly the wanted events that did not meet a full channel |
| `Bus.DropOnlyWhenFull` | internal/bus/broker.go:122-133 | A wanted event is missing only when 256 were pending |
| `Bus.NothingForTheUnregistered` | internal/bus/broker.go:62-69 | No step adds anything to the channel of a client that is not registered |
| `Bus.TablesFollowTrace` | internal/bus/broker.go:45-88 | Ids, uids, registrations and patterns are at every moment what the history of connections and messages says |
| `Bus.KeptIsSubsequence` | internal/bus/broker.go:110-134 | Dropping never reorders |
| `Bus.KeptIsAll` | internal/bus/broker.go:110-134 | A channel that was never full drops nothing |
| `MailScope.MatchesForeignIff` | internal/bus/match.go:16-28 | A pattern matches a publishable agent message for somebody else if and only if its segments reach agent messages without fixing the recipient |
| `MailScope.AcceptedEscapesAreWild` | internal/bus/agent_message.go:44-59 | Accepted patterns that do so, for a client that is not root, have a wildcard in place of the prefix |
| `MailScope.WildcardSlipsThrough` | internal/bus/agent_message.go:44-59 | Such a pattern, accepted by a strict broker for every client that is not root |
| `Topics.ScopedPatternMatches` | internal/bus/agent_message.go:44-59 | What an accepted scoped pattern can match, and exactly when such a topic is well formed |
| `Topics.FamiliesMeaning` | internal/bus/provenance.go:79-100 | The walk that stops at the first matching family refuses exactly the unprivileged senders of any family |
| `Topics.PublishOkMeaning` | internal/bus/provenance.go:79-100 | A publish passes exactly for root, a delegated sender or an unprivileged topic |
| `Decimal.ValueOfDec` | internal/schema/agent_message.go:35-37 | Reading a printed uid gives its value |
| `Decimal.CanonicalIffPrinted` | internal/schema/agent_message.go:82-91 | The segments taken as uids are exactly the printed ones: no sign, no leading zero, in range |
| `Decimal.Digits` | internal/bus/provenance.go:156-168 | Filling ten bytes from the right prints every 32-bit uid, without underflow |
| `ThemeSafety.UnsafeNameGetsThrough` | internal/shellui/server.go:1706-1712 | A sheet that is left alone although a property name in it holds such a fragment |
| `Theme.RulesAreClean` | internal/shellui/server.go:1641-1712 | Whatever the input, only allow-listed selectors and properties with safe values get through |
| `Theme.StrippedHasNoComment` | internal/shellui/server.go:1616-1628 | No comment opener is left, although cutting a comment may join a new one |
| `Theme.StripCSSComments` | internal/shellui/server.go:1616-1628 | The loop ends and leaves no comment opener |
| `Theme.NormalizeSelectors` | internal/shellui/server.go:1630-1639 | The loop gives the trimmed, non-empty selectors in order |
| `Theme.SanitizeDeclarations` | internal/shellui/server.go:1658-1682 | The loop splits declarations into kept ones and warnings, in order |
| `Theme.SanitizeBlock` | internal/shellui/server.go:1588-1612 | One block adds its rule, its warnings, or nothing |
| `Theme.SanitizeThemeCSS` | internal/shellui/server.go:1585-1614 | Text and warnings are those of the rules read from the sheet |
| `Theme.WriteRule` | internal/shellui/server.go:1601-1611 | The builder appends exactly the printed rule |
| `AuditRing.DropMakesGap` | internal/audit/broker.go:33-53 | Publishing keeps that suffix property if and only if the channel had room |
| `Tags.StepListedIff` | internal/compositor/layout.go:172-182 | One step keeps all placements listed if and only if it does not finish an assignment that loses one |
| `Tags.OverlapLosesSurface` | internal/compositor/layout.go:95-182 | Two overlapping assignments after which the first surface is placed under the tag and not listed by it |
| `Tags.AppendedMeans` | internal/compositor/layout.go:222-238 | The list gains exactly the new id, loses only blanks, and is sorted, each id once |
| `Tags.AppendUniqueSorted` | internal/compositor/layout.go:222-238 | The loops over the list give that list |
| `Geometry.ResolveZoneGeometry` | internal/schema/layout.go:359-407 | Step-by-step insets, rounding, clipping and capping give the resolved zone or the error |
| `Geometry.ResolvedIsInside` | internal/schema/layout.go:359-407 | On success the zone is non-empty, inside the usable region and within its maximum size |
| `Geometry.SharedEdge` | internal/schema/layout.go:372-396 | Two spans meeting at a normalised edge differ there by at most one pixel |
| `Geometry.CenteredTileInside` | internal/compositor/bridge.go:1741-1753 | A centred tile lies in its cell with opposite margins differing by at most one pixel |
| `Geometry.AssignedTileInRegion` | internal/compositor/layout.go:119-133 | The tile a surface gets from a tag assignment lies in the region's usable part |
| `Outputs.LaidApart` | internal/compositor/bridge.go:2914-2945 | A layout pass puts different outputs in disjoint rectangles |
| `Outputs.LaidInBounds` | internal/compositor/bridge.go:2914-2945 | A layout pass stays inside the bounds when they are at least as large as the grid |
| `Exec.ParseOfQuoted` | internal/appcatalog/catalog.go:149-151 | Quotes, spaces and control characters inside arguments survive quoting and parsing |
| `Exec.ParseDesktopExec` | internal/appcatalog/desktop_import.go:444-495 | The character loop is the lexer, with its error for an open quote |
| `Exec.NoEmptyArguments` | internal/appcatalog/desktop_import.go:452-457 | The lexer never yields an empty argument |
| `Exec.BadArgumentKills` | internal/appcatalog/desktop_import.go:458-484 | The other half: with non-empty arguments, one backslash anywhere makes the parse differ |
| `Catalog.Validate` | internal/appcatalog/catalog.go:200-255 | In place: accepts exactly the sound catalogs with distinct ids and leaves the sorted normalised entries; otherwise names the first offending entry and its first complaint |
| `Catalog.ValidatedIsClean` | internal/appcatalog/catalog.go:200-255 | An accepted catalog comes out sound and strictly sorted by id, a permutation of its normalised entries |
| `Catalog.CleanIsFixed` | internal/appcatalog/catalog.go:200-255 | Sound, normalised, sorted catalogs are fixed points |
| `Catalog.Merge` | internal/appcatalog/catalog.go:177-198 | The index map and slice give the fold of replace-or-append |
| `Catalog.MergeOfClean` | internal/appcatalog/catalog.go:177-255 | Merging two validated catalogs gives one that validation accepts |
| `Catalog.Find` | internal/appcatalog/catalog.go:269-277 | The first entry with the trimmed id, which with distinct ids is the only one |
| `DesktopImport.CleanNamesAreKept` | internal/appcatalog/desktop_import.go:322-336 | Names already in id form are kept, so they cannot collide |
| `CatalogLoad.CatalogOverlay` | internal/appcatalog/desktop_import.go:169-181 | For any artifact: one disabled entry for each candidate, validated, accepted exactly when they are sound with distinct ids |
| `CatalogLoad.Load` | internal/appcatalog/catalog.go:90-119 | Without a host file loading never fails; with one it fails exactly for non-unique ids or an unacceptable merge; what loads is clean |
| `CatalogLoad.CheckUniqueIds` | internal/appcatalog/catalog.go:162-175 | Accepts exactly the lists without blank or repeated trimmed ids |
| `Png.UnfilterOfFilter` | scripts/asha_agora_control_proof.py:151-169 | Reconstructing a filtered row gives the row back |
| `Png.PaethIsNearest` | scripts/asha_agora_control_proof.py:162-165 | The Paeth predictor is the nearest neighbour, ties going to left, then up, then up-left |
| `Png.ReconstructRow` | scripts/asha_agora_control_proof.py:151-169 | The byte loop over the buffers is the reconstruction, short rows padded with zeros |
| `Png.ReconstructRows` | scripts/asha_agora_control_proof.py:145-171 | The row loop: rows, a missing filter byte, or an unknown filter in a non-empty row |
| `Png.ToRgba` | scripts/asha_agora_control_proof.py:172-181 | RGB rows are widened, RGBA rows kept |
| `Png.OpaquePixels` | scripts/asha_agora_control_proof.py:176-181 | Each widened pixel keeps its three samples and is opaque |
| `Png.DecodedWidths` | scripts/asha_agora_control_proof.py:145-171 | Whatever the data, decoding gives all rows at full width or an error |
| `PngCompare.ParseRgba` | scripts/asha_agora_control_proof.py:139-182 | Decoding and widening always give a whole image of the given size, fit for comparing |
| `PngCompare.ComparePngs` | scripts/asha_agora_control_proof.py:208-230 | Dimensions first; then the counts, a ratio between 0 and 1, and unchanged exactly for equal images |
| `PngCompare.DeltaBounds` | scripts/asha_agora_control_proof.py:217-222 | The channel delta lies between 1 and 1020 for each changed pixel, and none is changed exactly when all rows are equal |
| `A11y.ProjectionIsTidy` | internal/compositor/a11y.go:72-80 | No anonymous container is left below the root |
| `A11y.SemanticProjection` | internal/compositor/a11y.go:59-83 | The recursive loop over children is the projection |
| `Leases.StepMoves` | internal/supervisor/state.go:154-174 | Each operation moves a lease only along the transition table |
| `Leases.TerminalIsFinal` | internal/supervisor/state.go:57-59 | Expired and terminated leases are never changed again |
| `Leases.StepCount` | internal/supervisor/state.go:205-216 | Only adding a running lease raises its session's count, and by one at most |
| `Leases.ReusableSurvivesExpiry` | internal/supervisor/policy.go:183-196 | A lease that may be reused is running and untouched by expiry at the same moment |
| `Leases.ReuseSeesOnlyBlanks` | internal/supervisor/policy.go:171-179 | Two profiles with one reuse policy answer alike for every lease if and only if they agree on the first of network policy and runtime that is blank: neither is compared with the lease |
| `PolicyLaws.AccessMeans` | internal/compositor/bridge.go:4353-4376 | Access in any state, with the three actions spelled out: a tracked surface, pointer, keyboard or reading pixels, and its owner or an agent whose grant lists that action |
| `PolicyLaws.DerivedMeans` | internal/compositor/bridge.go:4330-4351 | Who is on a derived policy's pointer and keyboard lists, in increasing order and once each, and which owner it names |
| `PolicyLaws.RecordAfterEvent` | internal/compositor/bridge.go:4076-4208 | The surface records after a map or refresh event: uid and kind of its own surface, and who holds the focus mark |
| `PolicyLaws.PolicyAfterEvent` | internal/compositor/bridge.go:4076-4208 | When a map or refresh derives a policy, and that a layer-shell surface has none |
| `PolicyLaws.UnmapForgets` | internal/compositor/bridge.go:4197-4208 | An unmap forgets the surface, its policy and its grants and nothing else; an unknown event changes nothing |
| `PolicyLaws.EditsChangeOneEntry` | internal/compositor/bridge.go:1113-1157 | A manual edit changes exactly the entry it names, even when the send fails |
| `LaunchLaws.DescendsMeans` | internal/compositor/bridge.go:862-882 | Descent as a line of parents, each the recorded parent of the one before |
| `LaunchLaws.OwnerMeans` | internal/compositor/bridge.go:852-860 | Which launches own a process, by fields: running, started no later, and the same pid or an ancestor |
| `LaunchLaws.OwnerWins` | internal/compositor/bridge.go:817-850 | A running launch that owns the process wins over any hint |
| `LaunchLaws.FoundMeans` | internal/compositor/bridge.go:775-815 | What a waiting launch finds: its own surface, one of its process, or the only available one it announced, and when it must find something |
| `LaunchLaws.ExitMeans` | internal/compositor/bridge.go:651-675 | What an exit changes in the tables and what it leaves |
| `PlacementLaws.GeometryMeans` | internal/compositor/bridge.go:2811-2828 | The read-back matches exactly within 2 pixels of x and y, 8 of the width and 16 of the height |
| `PlacementLaws.IdReads` | internal/compositor/bridge.go:2755-2765 | A printed request id reads back as its clock reading and sequence number |
| `PlacementLaws.ResponseDecides` | internal/compositor/bridge.go:4037-4048 | What a response does to a waiting request in every case |
| `BusLaws.MatchMeans` | internal/bus/match.go:16-28 | A pattern matches exactly topics of as many segments, each the same or a wildcard |
| `BusLaws.AgentPublishIff` | internal/bus/agent_message.go:12-42 | An agent message is accepted exactly when its topic is the envelope's own addresses and kind printed and the envelope names the publisher as its sender |
| `ThemeLaws.NothingToStrip` | internal/shellui/server.go:1616-1628 | Text without a comment opener is left as it is |
| `ThemeLaws.StripOne` | internal/shellui/server.go:1616-1628 | The first comment goes from its opener through its closing, and what is round it is joined |
| `ThemeLaws.StripUnclosed` | internal/shellui/server.go:1616-1628 | An opener that is never closed cuts off the rest |
| `ThemeLaws.UnclosedCommentCutsOff` | internal/shellui/server.go:1585-1628 | Those of a sheet with an unclosed comment are those of what precedes it |
| `ThemeLaws.AllowedMeans` | internal/shellui/server.go:1641-1712 | The allowed selectors and properties and the refused value texts, spelled out |
| `ThemeLaws.SheetsCompose` | internal/shellui/server.go:1585-1614 | Two comment-free sheets in a row give the rules and warnings of the first and then of the second |
| `PngLaws.FilteringLaw` | scripts/asha_agora_control_proof.py:151-169 | The same laws for filtering, which takes the prediction away |
| `PngLaws.NearestIsOne` | scripts/asha_agora_control_proof.py:162-165 | The prediction of filter 4 is determined by being nearest in the tie order |
| `PngLaws.FirstRow` | scripts/asha_agora_control_proof.py:145-171 | When decoding fails at a row, and what the row is otherwise |
| `PngLaws.ChangedIsSize` | scripts/asha_agora_control_proof.py:217-222 | The changed pixels counted are as many as the positions at which the images differ |
| `LayoutLaws.RoundMeans` | internal/schema/layout.go:372-396 | Rounding to the nearest, halves away from zero |
| `LayoutLaws.ZoneIsValidIff` | internal/schema/layout.go:279-321 | Exactly the zones that pass validation |
| `LayoutLaws.DevLayoutMeans` | internal/schema/layout.go:227-240 | The three built-in zones in numbers, on every region |
| `LayoutLaws.OperationsMean` | internal/compositor/bridge.go:2618-2686 | Sizes and scales after creating, resizing and destroying outputs |
| `ExecLaws.ParseTrims` | internal/appcatalog/desktop_import.go:444-495 | White space round a line does not matter |
| `ExecLaws.OpenQuoteFails` | internal/appcatalog/desktop_import.go:444-495 | An open quote is the error; the arguments finished before it are given |
| `ExecLaws.LastBackslashStays` | internal/appcatalog/desktop_import.go:444-495 | A trailing backslash stands for itself |
| `CatalogLaws.FaultMeans` | internal/appcatalog/catalog.go:200-255 | Which fault is named for an entry |
| `CatalogLaws.MergeKeepsPlaces` | internal/appcatalog/catalog.go:177-198 | Merging keeps the place of every base entry and appends only new ids |
| `CatalogLaws.NewInOrder` | internal/appcatalog/catalog.go:177-198 | An overlay of new ids is appended in its own order |
| `DesktopLaws.IdOfName` | internal/appcatalog/desktop_import.go:322-336 | The id of a name that reads as a tidy text, of one that is too long, and of one with nothing to keep |
| `DesktopLaws.IdOfRun` | internal/appcatalog/desktop_import.go:322-336 | A run of characters no id may hold reads as one dash, whatever its length; with the row above this gives the id of every name |
| `DesktopLaws.TagsMean` | internal/appcatalog/desktop_import.go:338-362 | Exactly the tags an entry gets, and their order |
| `DesktopLaws.ListMeans` | internal/appcatalog/desktop_import.go:310-320 | How a semicolon list is cut |
| `DesktopLaws.PathsInOrder` | internal/appcatalog/desktop_import.go:115-150 | Which files are looked at, and in which order |
| `DesktopLaws.ImportedIff` | internal/appcatalog/desktop_import.go:198-248 | Exactly the files that give a candidate, by the keys of their main group |
| `DesktopLaws.ReasonsApply` | internal/appcatalog/desktop_import.go:198-248 | Which reason is given for a file that gives none |
| `DesktopLaws.InstalledMeans` | internal/appcatalog/catalog.go:121-147 | What an installed entry holds |
| `DesktopLaws.InstalledLaunches` | internal/appcatalog/catalog.go:121-151 | The command of an installed entry, read back by the lexer, is gtk-launch with the file's name without its suffix |
| `DesktopLaws.OverlayMeans` | internal/appcatalog/desktop_import.go:169-181 | What an overlay entry holds |
| `DesktopLaws.TerminalIsOffered` | internal/appcatalog/catalog.go:61-111 | Whatever is installed, the catalog a host's file is laid over offers the terminal as it was built in |
| `A11yLaws.NoWordDecides` | internal/compositor/a11y.go:85-119 | What decides when none of them is found |
| `A11yLaws.ActionMeans` | internal/compositor/a11y.go:125-133 | Which interface names make a node actionable, in any mixture of cases |
| `A11yLaws.FieldsAfter` | internal/compositor/a11y.go:59-83 | What a projected node keeps, records and loses |
| `A11yLaws.LastChild` | internal/compositor/a11y.go:59-83 | Which child is replaced by its own children, in place |
| `LeaseLaws.AdmitRaisesCount` | internal/supervisor/policy.go:216-227 | An admitted running lease raises its session's count by one |
| `LeaseLaws.ReusableIff` | internal/supervisor/policy.go:143-227 | Exactly the leases that may be reused, by fields |
| `PolicyLaws.SyncMeans` | internal/compositor/bridge.go:4274-4295 | What a sync leaves behind for every fate of its two messages |
| `PolicyLaws.ChangesAreSent` | internal/compositor/bridge.go:1113-1157 | Every change of a policy or of the input context sends just that to the installed plugin, and to no other session |
| `PolicyLaws.DefaultNames` | internal/compositor/grants.go:56-77 | The names of the three actions, what nothing asked for stands for, and that unknown actions are dropped |
| `LaunchLaws.ReconcileIsLookAndWrite` | internal/compositor/bridge.go:775-815 | A reconcile is exactly a look followed by its write, if it decided on one |
| `PlacementLaws.DeliveryMeans` | internal/compositor/bridge.go:4037-4048 | Which request a response goes to, and that it is buffered exactly when nothing is buffered there |
| `BusLaws.WantedIff` | internal/bus/broker.go:110-142 | An accepted publish is for a client exactly when the client is not its publisher and holds a pattern that matches the topic |
| `TagLaws.FinishMeans` | internal/compositor/layout.go:172-182 | A finished assignment places its surface, and writes the list it read with the surface added, whatever the list is by then; nothing else changes |
| `LayoutLaws.LeastBoundsMeans` | internal/compositor/bridge.go:2947-2960 | The bounds hold every surface, and no smaller ones do |
| `Policies.Bridge.SendMessage` | internal/compositor/bridge.go:86-90 | Step: one message on one session: what the session's cache and failure mark become when it arrives, is lost, or arrives although an error is reported |
| `Policies.Bridge.InstallPluginSession` | internal/compositor/bridge.go:4258-4264 | Step: the session becomes the installed one and the previous one is returned |
| `Policies.Bridge.ClearPluginSession` | internal/compositor/bridge.go:4266-4272 | Step: only the installed session clears the slot |
| `Policies.Bridge.SyncPluginSession` | internal/compositor/bridge.go:4274-4295 | Step: snapshot first, input context second, the second only if the first was sent; synced only if both were |
| `Policies.Bridge.UpsertSurfacePolicy` | internal/compositor/bridge.go:1113-1124 | Step: the map changes before the send, and stays changed when the send fails |
| `Policies.Bridge.RemoveSurfacePolicy` | internal/compositor/bridge.go:1126-1137 | Step: the entry goes before the send, and stays gone when the send fails |
| `Policies.Bridge.SetInputContext` | internal/compositor/bridge.go:1139-1157 | Step: the actor is stored before it is sent |
| `Policies.Bridge.RebuildSurfacePolicy` | internal/compositor/bridge.go:4330-4351 | Step: the map of agents, walked in any order, gives the sorted allow lists of the derived policy |
| `Policies.Bridge.SyncDerivedPolicy` | internal/compositor/bridge.go:4322-4328 | Step: the derived policy is stored and sent |
| `Policies.Bridge.GrantViewport` | internal/compositor/bridge.go:2546-2581 | Step: nothing changes when the log refuses; otherwise log, grants and derived policy change together |
| `Policies.Bridge.RevokeViewport` | internal/compositor/bridge.go:2583-2608 | Step: a revoke without a grant, or refused by the log, changes nothing; the last revoke of a surface drops its grant table |
| `Policies.Bridge.HandleSurfaceEvent` | internal/compositor/bridge.go:4076-4241 | Step: the new state for every kind of surface event, layer-shell surfaces keeping no policy |
| `Policies.Bridge.SurfaceMapped` | internal/compositor/bridge.go:4076-4208 | Step: a map event stores the surface, keeping its focus mark, and derives its policy |
| `Policies.Bridge.SurfaceRefreshed` | internal/compositor/bridge.go:4076-4208 | Step: a refresh updates the record and the focus marks and derives a policy only for a surface seen first |
| `Policies.Bridge.SurfaceUnmapped` | internal/compositor/bridge.go:4197-4208 | Step: an unmap drops surface, policy and grants, marks the log and tells the plugin |
| `Policies.Bridge.RemoveLayerShellSurfaces` | internal/compositor/bridge.go:726-737 | Step: removes exactly the given surfaces, with no message to the plugin |
| `Launches.LaunchTable.AssociateSurface` | internal/compositor/bridge.go:817-850 | Step: every outcome the map order allows: an owning launch if there is one, else the only hint match, else none; with no owner, bound exactly when one hint matches |
| `Launches.LaunchTable.FindLaunchSurface` | internal/compositor/bridge.go:775-815 | Step: every answer the map order allows when a launch looks for its surface |
| `Launches.LaunchTable.BeginReconcile` | internal/compositor/bridge.go:700-711 | Step: a waiting launch looks and remembers the binding it has to write |
| `Launches.LaunchTable.FinishReconcile` | internal/compositor/bridge.go:796-813 | Step: it writes that binding over whatever is there by then |
| `Launches.LaunchTable.ReconcileLaunchSurface` | internal/compositor/bridge.go:775-815 | Step: look and write with nothing between them |
| `Launches.LaunchTable.ForgetLaunches` | internal/compositor/bridge.go:359-363 | Step: the first loop removes exactly the session's launches |
| `Launches.LaunchTable.ForgetBindings` | internal/compositor/bridge.go:364-368 | Step: the second loop removes exactly the bindings left without a launch |
| `Launches.LaunchTable.SurfaceSeen` | internal/compositor/bridge.go:4118-4208 | Step: a surface is stored and then associated |
| `Launches.LaunchTable.SurfaceUnmapped` | internal/compositor/bridge.go:4197-4208 | Step: surface and binding go together |
| `Launches.LaunchTable.LaunchExited` | internal/compositor/bridge.go:651-675 | Step: a layer-shell launch takes its layer-shell surfaces and bindings with it, any other launch only stops |
| `Launches.LaunchTable.ForgetSession` | internal/compositor/bridge.go:353-371 | Step: the two loops remove exactly the session's launches and the bindings left without a launch |
| `Placement.PlaceTable.Receive` | internal/compositor/bridge.go:2787-2797 | Step: the select takes a response: a refusal ends the request, an acceptance ends it when nothing or a matching geometry is to be read back |
| `Placement.PlaceTable.Tick` | internal/compositor/bridge.go:2798-2801 | Step: the ticker ends the request when the geometry matches |
| `Placement.PlaceTable.GiveUp` | internal/compositor/bridge.go:2802-2806 | Step: the deadline or a failed send ends the request |
| `Placement.PlaceTable.Begin` | internal/compositor/bridge.go:2755-2770 | Step: a request takes the next number and registers its waiter |
| `Placement.PlaceTable.LookupWaiter` | internal/compositor/bridge.go:4037-4048 | Step: a response is addressed only to the waiter registered under its id |
| `Placement.PlaceTable.OfferResponse` | internal/compositor/bridge.go:4037-4048 | Step: a response is put in the one-slot channel or dropped when it is full |
| `Placement.PlaceTable.Cleanup` | internal/compositor/bridge.go:2755-2809 | Step: a returning request removes its own waiter only |
| `Bus.Broker.Register` | internal/bus/broker.go:45-58 | Step: a fresh id, no patterns, an empty channel |
| `Bus.Broker.Unregister` | internal/bus/broker.go:62-69 | Step: the client goes; an unknown id changes nothing |
| `Bus.Broker.Subscribe` | internal/bus/broker.go:73-79 | Step: the pattern joins the client's set |
| `Bus.Broker.Unsubscribe` | internal/bus/broker.go:82-88 | Step: the pattern leaves the client's set |
| `Bus.Broker.PublishWithSender` | internal/bus/broker.go:110-134 | Step: the loop over clients in any order offers the stamped event to exactly the other clients it matches |
| `Bus.Broker.Serve` | internal/bus/server.go:40-80 | Step: one message of a connection: accepted and carried out, or refused and the connection unregistered |
| `Bus.Broker.Drain` | internal/bus/server.go:82-88 | Step: the writer takes the oldest pending event |
| `AuditRing.Broker.Publish` | internal/audit/broker.go:33-53 | Step: the ring keeps refining the history and every subscriber is offered the line |
| `AuditRing.Broker.ReadRing` | internal/audit/broker.go:57-75 | Step: walking the ring from its oldest slot gives the last min(count, size) lines in order |
| `AuditRing.Broker.Subscribe` | internal/audit/broker.go:57-81 | Step: a fresh id, an empty channel, and the backlog as of the same moment |
| `AuditRing.Broker.Unsubscribe` | internal/audit/broker.go:85-89 | Step: the subscriber and its channel go |
| `AuditRing.Broker.Take` | internal/audit/broker.go:131-142 | Step: the stream writes the oldest queued line |
| `Tags.TagTable.BeginAssign` | internal/compositor/layout.go:95-99 | Step: the tag's list is read when the assignment begins |
| `Tags.TagTable.DenyAssign` | internal/compositor/layout.go:134-156 | Step: a denied assignment writes nothing |
| `Tags.TagTable.FinishAssign` | internal/compositor/layout.go:172-182 | Step: the placement is written, and the list that was read, with the surface, over whatever is there by then |
| `Outputs.OutputTable.PhysicalBounds` | internal/compositor/bridge.go:2947-2960 | Step: the bounds are the least that hold 1920 by 1080 and every surface, whatever the map order |
| `Outputs.OutputTable.LeastCols` | internal/compositor/bridge.go:2914-2945 | Step: counting up from one stops at the least column count whose square holds all outputs |
| `Outputs.OutputTable.SlotSize` | internal/compositor/bridge.go:2914-2945 | Step: columns and slot size of the grid, with the fallbacks for slots that would vanish |
| `Outputs.OutputTable.LayoutOutputs` | internal/compositor/bridge.go:2914-2945 | Step: the loop over sorted names gives every output its own slot |
| `Outputs.OutputTable.CreateOutput` | internal/compositor/bridge.go:2618-2647 | Step: defaults for missing sizes, then a new layout within the least bounds of the surfaces; an empty name changes nothing |
| `Outputs.OutputTable.DestroyOutput` | internal/compositor/bridge.go:2649-2664 | Step: an unknown name changes nothing; otherwise its surfaces are forgotten and the rest is laid out again |
| `Outputs.OutputTable.ResizeOutput` | internal/compositor/bridge.go:2666-2686 | Step: unknown names and non-positive sizes change nothing; otherwise a new layout |
| `Outputs.OutputTable.OutputForSurface` | internal/compositor/bridge.go:2973-2991 | Step: the remembered output, then the one on the surface's record; otherwise one sharing the most cells with the surface, or none if none shares any, whatever the map order; none without a geometry |
| `DesktopImport.Importer.Blame` | internal/appcatalog/desktop_import.go:124-131 | Step: an unreadable directory is diagnosed, and nothing else changes |
| `DesktopImport.Importer.Visit` | internal/appcatalog/desktop_import.go:135-160 | Step: one directory entry keeps the books balanced |
| `Leases.WorkerLeaseStore.Add` | internal/supervisor/state.go:87-96 | Step: a known worker id is refused, otherwise the lease is stored |
| `Leases.WorkerLeaseStore.UpdateState` | internal/supervisor/state.go:154-174 | Step: not found, invalid transition, or exactly the state changed |
| `Leases.WorkerLeaseStore.Release` | internal/supervisor/state.go:178-180 | Step: succeeds exactly for running leases |
| `Leases.WorkerLeaseStore.Remove` | internal/supervisor/state.go:184-189 | Step: the lease goes, known or not |
| `Leases.WorkerLeaseStore.CountBySession` | internal/supervisor/state.go:205-216 | Step: the number of the session's running leases, in any walk of the map |
| `Leases.WorkerLeaseStore.ExpireLeases` | internal/supervisor/state.go:221-240 | Step: exactly the running leases due before now expire, each listed once |
| `Leases.WorkerLeaseStore.CheckBudget` | internal/supervisor/policy.go:216-227 | Step: passes exactly when the limit is not positive or the count is below it |
| `Leases.WorkerLeaseStore.AdmitLease` | internal/supervisor/policy.go:216-227 | Step: budget check and addition as one step |

## Left out

- Sockets, JSON, HTTP, WebSocket, /proc, exec, systemd, nftables, fanotify, busctl and files: their results are parameters, able to fail where the code handles failure.
- Full Unicode: strings are ASCII; case folding and white space follow ASCII.
- Floating-point rounding: normalised zones and ratios are exact reals.
- The real clock: times are integers, and a placement's clock reading is an arbitrary number.
- Wrap-around of 64-bit counters (request numbers, client ids, history length): they are unbounded; uids are 32-bit.
- Aliasing: clients, grants and launches are values held in maps of their object, not shared pointers.
- Policies, launch bindings, placement, outputs and tags of the one bridge object are separate classes here; steps that touch two of them appear in both.
- Policies.ThreeAnswersAgree: leaves layer-shell surfaces, manual edits of the surface's own policy and moves of it that finish late out, because there the code's three answers do differ.
- Policies.AtMostOneFocused: speaks of the stored records; the flag recomputed when a surface is reported is not part of this model.
- Launches.LaunchTable.BeginReconcile: looks at the tables of one moment. The source writes under the read lock that other waiting launches share; the look and the write of each are separate steps here, but reads of the binding map that overlap another wait's write, which Go leaves undefined, are not part of this model.
- Launches.LaunchTable.AssociateSurface: takes launch ids to be non-empty, as the bridge makes them; the source also uses the empty id for "no hint yet".
- Tags.TagTable.BeginAssign: stands for all reads before the placement; which checks deny an assignment is not part of this model, except that the surface is named and the tag known.
- Launches.ProcessDescendsFrom: reads one fixed parent table; processes that come and go during a walk are not part of this model.
- Outputs.OutputTable.OutputForSurface: says nothing about the overlap fallback when an output has the empty name, which creation never allows.
- Placement.PlaceTable.Begin: starts with a plugin connected; without one the source returns before it touches this state.
- Bus.QueuedEventsAreTrusted: promises no stamp, because a message read after its connection was unregistered carries none.
- AuditRing.Broker.constructor: asks for a positive ring size, which the source never checks.
- AuditRing.StreamHasNoGap: ends at the first event that meets a full channel; from there on there is a gap, as AuditRing.SuffixIffNoDrop shows, and AuditLaws.WrittenIsMeant says what is still sent.
- Catalog.Validate: any of several bad environment keys of one entry may be the one named, as in the map walk of the source.
- DesktopImport.ImportDesktopCandidates: file contents are taken as fixed while an import runs; actions, field codes and risk flags of an entry are not part of this model.
- The desktop-file reader itself: groups and keys of a file are given.
- Png.DecodeOfEncode: starts from the decompressed bytes; chunk parsing and zlib are not part of this model.
- Png.ReconstructRows: a missing filter byte is an error value where the source raises an index error.
- Leases.WorkerLeaseStore.AdmitLease: stands for the supervisor service, of which only checking the budget and then adding the lease is modelled, as one step.
- Listing and lookup of leases by session, requester or uid: plain filters.
- LLM clients, brains, the ambassador, shell assets, command-line tools and proof drivers: no property beyond plumbing.
