# Verified models of browser-tools

browser-tools drives Chrome over the DevTools protocol. This project models the
parts of it that keep shared state right while messages, failures and other
processes interleave, and proves what they promise. `dafny verify dfyconfig.toml`
checks everything.

How the files fit together:

- `Prelude`, `Forest`, `Surgery`, `Walks`: one tree kept as a map of parent links
  and children lists; cutting, grafting and walking it. Used for frames and for
  accessibility nodes alike.
- `Frames`, `FrameManager`, `FrameLaws`, `SelectionLaws`, `ReportLaws`: the frame
  manager. The class edits frame objects in place; `Frames` says as a value what every
  event does; the laws are about runs of events.
- `Desks`, `FrameSessions`, `SessionLaws`, `DropLaws`, `Resplicing`, `OwnFrames`,
  `Placements`, `Listings`, `Discovery`: the sessions of out-of-process frames. The
  class holds one method for each stretch of code between two awaits; `Desks` says as
  a value what each does, and any order of them is a run.
- `Json`, `TraceCounter`, `CounterLaws`: the streaming counter of trace events
  against the JSON text it reads (RFC 8259, sections 4, 5 and 7).
- `Uids`, `Stitching`, `StitchLaws`, `StitchPlaces`, `CrossSessions`, `Snapshots`,
  `SnapshotReaders`, `SnapshotLaws`: accessibility trees of several documents, each
  read on its own session, made into one, and the UIDs its nodes are addressed by.
- `LoginContract`, `Login`, `LoginLaws`: one login against an environment that may answer,
  refuse, fail, expire or cancel at every awaited call.
- `Relay`: the reader of the credential pipe, its owner and the processes that
  write to it, as interleaved steps.
- `Deadlines`, `Domains`: the run's deadline and its grace, and the domains a step
  turns on and gives back.
- `Profiles`, `Migration`: launches, stops and retirements that share one registry,
  and moving profiles so that a login survives a crash.

Where the code and what is written about it differ, the model follows the code:

- `splice_session_tree` does not refuse a parent below the frame it splices, as
  `handle_frame_attached` does. `FrameLaws.SpliceSafeIff` gives the exact condition.
- `drop` is described as taking every session that answered for a frame that went.
  It takes those whose own frame the departed session answered for.
  `DropLaws.LeftBehindIff` says exactly when that differs, `OwnFrames.DeparturesAreExact`
  that it does so at every point of a run; a run that gets there is
  `NestedSessionStays`.
- The passes over the held trees do not end the same in every order when one of them
  hangs under a frame that another one replaces: splicing that one forgets what was
  hung there. `Resplicing.OrderMattersIff` gives the exact condition, whether the
  trees' parents are mapped yet or not, and `PlaceholderOrderMatters` the smallest case.
- A setup that fails after its session has gone lists the gone frame as
  unreachable, and drops whichever session has the id by then
  (`SessionLaws.StaleAnswer`).
- `drop` means to keep a gone frame off the unreachable list, but takes off only targets
  that had a session: one listed because the bound was reached stays listed after it
  detaches (`Listings.StepLists`).
- `TraceEventCounter.feed` looks for the key before it steps any byte of the
  chunk. `CounterLaws.SplitFreeIff` says exactly when that cannot be noticed.
- A profile whose source could not be cleared after the copy was renamed into
  place is reported as refused, though the verified copy is there
  (`Migration.Disk.TransferProfile`, `RefusedThoughMoved`).
- A supervisor decides to retire its browser before it takes the registry's lock, and
  the removal is by name. `Profiles.RetireIff` and `AccountedIff` say when that is
  safe; `StaleRetirement` is a run in which it is not.
- An enable whose answer is lost after the browser acted on it is not undone, so the
  next step may find its domain on. `Domains.BracketTidyIff` and `EveryEnableIsFirst`
  say exactly when every step finds it off.

## Model

| member | source | states |
|---|---|---|
| `FrameLaws.EveryMappedFrameIsReachable` | src/browser_tools/frame_manager.py:493-593 | After any run of events from an empty manager the parent links and the children lists are one acyclic tree, and every mapped frame hangs from the root and is in the listing |
| `FrameLaws.RunKeepsTree` | src/browser_tools/frame_manager.py:133-183 | Every run of frame, session, context and selection events keeps the tree, from any state that has it |
| `FrameLaws.StepKeepsTree` | src/browser_tools/frame_manager.py:493-748 | Each single event keeps the tree, given what Chrome owes of the ids in a reply |
| `FrameLaws.SpliceSafeIff` | src/browser_tools/frame_manager.py:364-400 | A splice keeps the tree if and only if the reply repeats no id, the parent is outside the replaced subtree and no id of the reply names a frame elsewhere |
| `FrameLaws.TreeReadSafeIff` | src/browser_tools/frame_manager.py:133-183 | The page's own tree reply is stored as one tree if and only if it repeats no id |
| `FrameLaws.SpliceBelowItself` | src/browser_tools/frame_manager.py:364-400 | The splice has no guard against a parent inside the replaced subtree: such a reply always breaks the tree |
| `FrameLaws.SpliceOverOthers` | src/browser_tools/frame_manager.py:364-400 | A reply that names a frame outside the replaced subtree always breaks the tree |
| `Frames.SpliceKeepsTree` | src/browser_tools/frame_manager.py:364-400 | A sane splice leaves one tree with the reply's subtree hung under its parent |
| `Frames.DetachIsDrop` | src/browser_tools/frame_manager.py:558-593 | In a tree, unlinking a detached frame from its one recorded parent removes the same frames and links as unlinking it everywhere |
| `Frames.AttachKeepsTree` | src/browser_tools/frame_manager.py:493-556 | An attach, accepted or refused, keeps the tree: a frame whose parent is missing or below it is taken out with all it holds |
| `Frames.NavigateKeepsTree` | src/browser_tools/frame_manager.py:686-748 | A navigation, known frame or new, keeps the tree, and the root is set exactly when the first parentless frame arrives |
| `Frames.ParseIsTree` | src/browser_tools/frame_manager.py:145-183 | A frame tree reply without repeated ids is stored as one tree rooted at its own root |
| `Surgery.DropKeepsTree` | src/browser_tools/frame_manager.py:448-457 | Taking a frame out with all below it leaves a tree |
| `Surgery.DropAllStep` | src/browser_tools/frame_manager.py:402-417 | Dropping several frames one after another has no order: the result is that of dropping them all at once |
| `Surgery.DropAllKeepsTree` | src/browser_tools/frame_manager.py:402-417 | Dropping any set of frames with all below them leaves a tree |
| `Walks.PreDistinct` | src/browser_tools/frame_manager.py:336-362 | The document order of a tree names no frame twice |
| `Walks.WalkIsComplete` | src/browser_tools/frame_manager.py:336-362 | The document order from the root names every frame of the tree |
| `FrameLaws.ListingIsPreOrder` | src/browser_tools/frame_manager.py:336-362 | The stack walk with its seen set lists exactly the document order: a frame, then the subtrees of its children in turn |
| `FrameLaws.FlatIsListing` | src/browser_tools/frame_manager.py:198-227 | The recursive flat list and the stack walk list the same frames in the same order |
| `FrameLaws.DepthWalkIsDepth` | src/browser_tools/frame_manager.py:419-441 | Climbing parent links with a seen set counts exactly the frame's depth in the tree |
| `FrameLaws.OwnersComeFirst` | src/browser_tools/frame_manager.py:287-317 | In the list of documents the first has no owner and each other one follows the document that owns it, named with its id, token and session |
| `SelectionLaws.SelectionFollowsPattern` | src/browser_tools/frame_manager.py:595-639 | After each event that resolves a selection again, the selected frame is the first listed one whose URL the pattern matches, and none when none matches |
| `SelectionLaws.SelectedFrameIsListed` | src/browser_tools/frame_manager.py:270-285 | After any run, a frame handed to a read is in the map and in the listing, stale selections included |
| `SelectionLaws.ReadsFollowSelection` | src/browser_tools/frame_manager.py:270-285 | A read is given the selected frame while it is mapped; once it is not, the first listed frame its pattern matches, which stays selected; and none where nothing was selected, nothing matches or there is no pattern |
| `SelectionLaws.SelectedContextIsLive` | src/browser_tools/frame_manager.py:319-334 | After any run whose contexts are announced on the answering session under unused ids, the context a read is sent to was created and neither destroyed nor cleared since |
| `SelectionLaws.TableIsLive` | src/browser_tools/frame_manager.py:750-801 | The context table holds exactly the contexts of the run that nothing has ended |
| `SelectionLaws.OtherSessionsKeepTheirs` | src/browser_tools/frame_manager.py:641-660 | A destroy or clear on one session leaves every other session's contexts and frames as they were |
| `SelectionLaws.StrayAnnouncement` | src/browser_tools/frame_manager.py:750-801 | Why the announcement must come on the answering session: a run in which a read is sent to a context that was destroyed |
| `SelectionLaws.ReusedAnnouncement` | src/browser_tools/frame_manager.py:750-801 | Why the id must be unused: announced again for another frame and then destroyed, a context goes on being handed out for the first |
| `ReportLaws.FrameCarriesLatest` | src/browser_tools/frame_manager.py:493-801 | After any run, whatever it did, each mapped frame's URL and loader are those last said of it, by the reply, the attach or the navigation that made it or one since, and so are the session that answers for it and its context, which only a default announcement gives it and a destroy or a clear of its own session takes |
| `ReportLaws.StepSays` | src/browser_tools/frame_manager.py:493-801 | One event leaves every surviving frame that it does not speak of with the URL, loader, session and context it had |
| `ReportLaws.StepMaps` | src/browser_tools/frame_manager.py:493-748 | Exactly which frames one event leaves in the map, told from the parent links before it |
| `ReportLaws.HangsLast` | src/browser_tools/frame_manager.py:493-556 | A frame that is attached, spliced or made by a navigation becomes the last of its parent's children; the others keep their order |
| `ReportLaws.OthersHang` | src/browser_tools/frame_manager.py:493-748 | A frame that stays and is not brought again keeps its parent |
| `ReportLaws.ReplyIsListedInOrder` | src/browser_tools/frame_manager.py:133-183 | The page's reply is listed in its own order: each frame before those it holds, and these in the order the reply holds them |
| `ReportLaws.SpliceIsListedInOrder` | src/browser_tools/frame_manager.py:364-400 | So is a child session's, where it is hung |
| `ReportLaws.SelectionStays` | src/browser_tools/frame_manager.py:229-285 | An event that resolves nothing again leaves the selection unless it loses the selected frame; only a selection and a reset touch the pattern; only the page's reply and a first parentless navigation name a root |
| `ReportLaws.ContextIsFiled` | src/browser_tools/frame_manager.py:750-772 | A context in the table is filed under the frame it was last announced for |
| `ReportLaws.DocumentsFollowReports` | src/browser_tools/frame_manager.py:287-317 | A document's token is made from its frame's id and the loader last reported of it, its session is the one last said, and it names its parent's token, made the same way |
| `FrameManagers.FrameManager.Doomed` | src/browser_tools/frame_manager.py:662-684 | The worklist collects exactly the proper descendants by parent link, on any map, cyclic ones too, and ends |
| `FrameManagers.FrameManager.ForgetDescendants` | src/browser_tools/frame_manager.py:662-684 | Exactly the proper descendants leave the map, and the selection with them if it was one |
| `FrameManagers.FrameManager.Unlink` | src/browser_tools/frame_manager.py:448-457 | The frame is gone from every children list and nothing else changes, order included |
| `FrameManagers.FrameManager.ParseFrameTree` | src/browser_tools/frame_manager.py:145-183 | The stored objects are the parsed reply; a node without an id is skipped with all it holds, and a repeated id keeps the last |
| `FrameManagers.FrameManager.UpdateFromFrameTree` | src/browser_tools/frame_manager.py:133-143 | The objects become those of the reply alone |
| `FrameManagers.FrameManager.SpliceSessionTree` | src/browser_tools/frame_manager.py:364-400 | True exactly when the reply has an id and a mapped parent; the objects then change as the splice says, else not at all |
| `FrameManagers.FrameManager.ForgetSession` | src/browser_tools/frame_manager.py:402-417 | Returns the frames the session answered for; exactly they and all below go, and the selection is resolved again |
| `FrameManagers.FrameManager.SessionFor` | src/browser_tools/frame_manager.py:443-446 | The session marked on the frame, none for an unknown one |
| `FrameManagers.FrameManager.IsDescendant` | src/browser_tools/frame_manager.py:458-472 | True exactly when climbing parent links from one frame meets the other, on any map |
| `FrameManagers.FrameManager.DepthOf` | src/browser_tools/frame_manager.py:419-441 | The number of links climbed, which DepthWalkIsDepth shows to be the depth |
| `FrameManagers.FrameManager.HandleFrameAttached` | src/browser_tools/frame_manager.py:493-556 | The objects change as the attach event says, refusals included |
| `FrameManagers.FrameManager.HandleFrameDetached` | src/browser_tools/frame_manager.py:558-593 | The objects change as the detach event says, selection included |
| `FrameManagers.FrameManager.HandleFrameNavigated` | src/browser_tools/frame_manager.py:686-748 | The objects change as the navigation says: subtree forgotten, fields kept when absent, root and selection updated |
| `FrameManagers.FrameManager.HandleNavigatedWithinDocument` | src/browser_tools/frame_manager.py:613-639 | The URL changes and the selection is resolved again |
| `FrameManagers.FrameManager.HandleExecutionContextCreated` | src/browser_tools/frame_manager.py:750-772 | The context is filed under its session and id, and on the frame when it is the default one |
| `FrameManagers.FrameManager.HandleExecutionContextDestroyed` | src/browser_tools/frame_manager.py:774-801 | The context is unfiled, and cleared on the frame only if the frame still carries it on that session |
| `FrameManagers.FrameManager.HandleExecutionContextsCleared` | src/browser_tools/frame_manager.py:641-660 | All contexts of one session are unfiled and cleared on the frames of that session |
| `FrameManagers.FrameManager.ReachableFrames` | src/browser_tools/frame_manager.py:336-362 | The stack loop returns the listing |
| `FrameManagers.FrameManager.ResolveFrameByUrl` | src/browser_tools/frame_manager.py:474-491 | The first listed frame whose URL matches |
| `FrameManagers.FrameManager.SelectFrameByUrl` | src/browser_tools/frame_manager.py:229-246 | Selects that frame and remembers the pattern |
| `FrameManagers.FrameManager.ResetFrame` | src/browser_tools/frame_manager.py:248-252 | Forgets the selection and the pattern |
| `FrameManagers.FrameManager.ReresolveSelection` | src/browser_tools/frame_manager.py:595-611 | A selection with a pattern is resolved again, one without is kept |
| `FrameManagers.FrameManager.GetSelectedFrame` | src/browser_tools/frame_manager.py:270-285 | The selected frame, resolved again by its pattern once its id is stale |
| `FrameManagers.FrameManager.GetSelectedContext` | src/browser_tools/frame_manager.py:319-334 | The session and context of that frame, when it has one |
| `FrameManagers.FrameManager.FrameDocuments` | src/browser_tools/frame_manager.py:287-317 | One document for each listed frame, in order, with its owner |
| `FrameManagers.FrameManager.FlattenFrames` | src/browser_tools/frame_manager.py:210-227 | Appends the frame's subtree in document order, each frame with its depth |
| `FrameManagers.FrameManager.GetFlatFrames` | src/browser_tools/frame_manager.py:198-208 | The listing, each frame tagged with its distance from the root |
| `ChildSessions.FrameSessions.OnAttached` | src/browser_tools/frame_sessions.py:207-282 | Only a supported target other than the page's own is considered |
| `ChildSessions.FrameSessions.Admit` | src/browser_tools/frame_sessions.py:232-265 | A blank, known or duplicate target changes nothing; past the bound it is listed as unreachable; otherwise one session and one task appear |
| `ChildSessions.FrameSessions.HasTarget` | src/browser_tools/frame_sessions.py:267-268 | True exactly when some session has the target |
| `ChildSessions.FrameSessions.OnDetached` | src/browser_tools/frame_sessions.py:218-224 | A departure drops the session |
| `ChildSessions.FrameSessions.Drop` | src/browser_tools/frame_sessions.py:363-377 | The table, the frames and the unreachable list change as the cascading drop says |
| `ChildSessions.FrameSessions.Abandon` | src/browser_tools/frame_sessions.py:326-339 | The session is dropped first and its target listed after, so the listing survives the drop |
| `ChildSessions.FrameSessions.TooDeep` | src/browser_tools/frame_sessions.py:341-354 | Past the depth bound the spliced subtree is taken out again and the target listed by the reply's URL |
| `ChildSessions.FrameSessions.IsStale` | src/browser_tools/frame_sessions.py:356-359 | True exactly when the session object is not the one in the table; the generation test adds nothing to that |
| `ChildSessions.FrameSessions.GiveSlot` | src/browser_tools/frame_sessions.py:284-288 | A queued setup starts only while fewer than eight are running |
| `ChildSessions.FrameSessions.AnswerTree` | src/browser_tools/frame_sessions.py:298-315 | What a getFrameTree answer does: nothing when stale, else splice, hold or give up past the bound |
| `ChildSessions.FrameSessions.AnswerEnable` | src/browser_tools/frame_sessions.py:317-321 | What the enable's answer does: nothing when stale, else on to auto-attach |
| `ChildSessions.FrameSessions.FinishSetup` | src/browser_tools/frame_sessions.py:321-324 | The session object is marked ready whether or not the table still holds it |
| `ChildSessions.FrameSessions.FailSetup` | src/browser_tools/frame_sessions.py:284-296 | A failure or timeout abandons by session id |
| `ChildSessions.FrameSessions.ResplicePending` | src/browser_tools/frame_sessions.py:400-420 | Passes over the sessions in order until one splices nothing, as Respliced says |
| `SessionLaws.SessionsStayBounded` | src/browser_tools/frame_sessions.py:232-268 | At every point of every interleaving: at most 32 sessions and 8 running setups, at most one session a target, every marked frame's session live, and a session that is not ready has its setup task |
| `SessionLaws.StepKeepsBounds` | src/browser_tools/frame_sessions.py:298-377 | Each message or answer keeps those bounds |
| `SessionLaws.OneTreeOverSessions` | src/browser_tools/frame_sessions.py:298-420 | At every point of every run with sane replies the frames of the page and all sessions are one tree, each frame reachable from the root |
| `SessionLaws.EventMarks` | src/browser_tools/frame_manager.py:364-417 | Only a splice marks a frame with a session, and only with its own |
| `SessionLaws.StaleAnswer` | src/browser_tools/frame_sessions.py:284-359 | Any answer about a departed session changes nothing but its task; a failure also lists its target, and touches the sessions unless its id is unused |
| `SessionLaws.LateAnswerIsHarmless` | src/browser_tools/frame_sessions.py:356-377 | Where session ids are not reused, no late answer, not even a failure, changes a frame, the selection or a session |
| `DropLaws.DropTakes` | src/browser_tools/frame_sessions.py:363-377 | Whatever it cascades into, a drop takes the session and every session whose own frame it answered for; any other taken had its own frame answered for by one that went; exactly the frames they answer for go, with all below |
| `DropLaws.DropTakesExactly` | src/browser_tools/frame_sessions.py:363-377 | On the same condition a drop takes the session and every session whose own frame it answered for, and no other, in whatever order the table has; and exactly the frames it answered for, with all below |
| `OwnFrames.DeparturesAreExact` | src/browser_tools/frame_sessions.py:363-377 | The condition holds at every point of every run whose replies are sane and rooted at their own target: each frame a session answers for is at or below its own, so each departure takes exactly that, and leaves a session behind exactly in that case |
| `OwnFrames.StepRooted` | src/browser_tools/frame_sessions.py:298-420 | Each message, answer or pass keeps every session's frames at or below its own frame |
| `DropLaws.LeftBehindIff` | src/browser_tools/frame_sessions.py:363-377 | Through any cascade: no session is left that answered for a frame that went, if and only if nothing below the departed session's frames belongs to another live session (where no session whose own frame it answered for answers for frames itself) |
| `DropLaws.UnnestedLeavesNone` | src/browser_tools/frame_sessions.py:363-377 | Whatever a drop cascades into, where no session's frame lies below another session's, no session is left that answered for a frame that went |
| `DropLaws.CascadeLeavesSession` | src/browser_tools/frame_sessions.py:363-377 | A drop that cascades to a second session and still leaves a third, with no frame |
| `DropLaws.NestedSessionStays` | src/browser_tools/frame_sessions.py:363-377 | A run of messages reaches a session spliced below another; when that one departs it stays, with no frame left: the cascade does not reach it |
| `Resplicing.ResplicedIsExhausted` | src/browser_tools/frame_sessions.py:400-420 | The passes end, and end with no held tree whose parent is in the map |
| `Resplicing.RespliceOutcome` | src/browser_tools/frame_sessions.py:400-420 | For held trees with ids apart from each other, each by itself a sane splice and none hung under a frame another replaces: the trees placed are the least set closed under parent arrival, the frames are the old ones no tree replaced and theirs, each where its tree says, and the whole is one tree |
| `Resplicing.OrderDoesNotMatter` | src/browser_tools/frame_sessions.py:400-420 | For such trees, own placeholders mapped or not, the resulting frames, parents, marks and sessions do not depend on the order in which the sessions are visited |
| `Resplicing.OrderMattersIff` | src/browser_tools/frame_sessions.py:400-420 | Parents mapped or not: whichever of the trees are held, every order ends alike, if and only if none hangs under a frame that another one replaces (a tree whose placeholder is mapped naming a mapped parent) |
| `Resplicing.PairOrderMatters` | src/browser_tools/frame_sessions.py:400-420 | Where one does, how the two orders end: the later tree held for good in one of them, or placed in one and placed and gone in the other |
| `Resplicing.PlaceholderOrderMatters` | src/browser_tools/frame_sessions.py:400-420 | The smallest case, a placeholder's own tree and a frame held below it: one order ends with both, the other with nothing held and the frame gone |
| `Discovery.SettledCoversEveryDepth` | src/browser_tools/frame_sessions.py:185-203 | On an ordered connection and a page that does not change: once the page's barrier has been read and no setup task is left, every target below the page or below a target with a session has a session or is listed as unreachable |
| `Discovery.NothingVanishes` | src/browser_tools/frame_sessions.py:379-398 | On the way down to any target, however deep, every target has a session or the first that has none is listed |
| `Discovery.DropsItself` | src/browser_tools/frame_sessions.py:326-377 | With honest replies a failed setup takes no other session with it |
| `Placements.AnsweredTree` | src/browser_tools/frame_sessions.py:298-321 | A live session's answered tree: held just as it was answered, and nothing else changed, if its parent is not mapped; shown whole, each frame marked for the session, if the parent lies less than ten levels deep; past that, and only then, given up and its target listed by the reply's URL |
| `Placements.StepKeeps` | src/browser_tools/frame_sessions.py:284-420 | No message, answer or pass loses a tree that was answered: held or shown, it stays so, unless the step takes a frame at or above it or ends its session |
| `Placements.AnsweredTreeIsKept` | src/browser_tools/frame_sessions.py:298-420 | Over any run with sane replies rooted at their own target: what was answered for a session still there, and not disturbed since, is held as it was answered or its frame is mapped and marked for it; and after the held trees were tried again, it is mapped if its parent is |
| `Listings.DropUnlists` | src/browser_tools/frame_sessions.py:363-377 | Whatever it cascades into, a drop takes off the list the targets of exactly the sessions that go |
| `Listings.StepLists` | src/browser_tools/frame_sessions.py:232-377 | Exactly what is listed after any step, and by which URL: what an attach past the bound, a failed setup or a tree past the depth bound adds, less the targets of the sessions that go |
| `Listings.ListedIsAttached` | src/browser_tools/frame_sessions.py:232-398 | Over any run with sane replies, every listed target was attached, and its URL is that of an attach of it or of a reply |
| `TraceCounter.TraceEventCounter.Feed` | src/browser_tools/captures.py:138-145 | One chunk: the probe over the kept tail decides once, before any byte of the chunk is stepped |
| `TraceCounter.TraceEventCounter.StepByte` | src/browser_tools/captures.py:147-178 | One byte of the automaton |
| `TraceCounter.ProbeFinds` | src/browser_tools/captures.py:138-145 | Thirteen kept bytes find the key in the stream exactly when it occurs, wherever the chunks are cut |
| `TraceCounter.ChunksAreOneCut` | src/browser_tools/captures.py:138-178 | Any chunking is one switch from blind to seeing at the start of the chunk that completes the key |
| `CounterLaws.AnySplit` | src/browser_tools/captures.py:138-178 | When no array opens outside a string before the key, every split steps the same automaton over the same bytes |
| `CounterLaws.SplitFreeIff` | src/browser_tools/captures.py:138-145 | Which array is counted is the same for every split if and only if the key, if it occurs, is complete before any array opens outside a string |
| `CounterLaws.CutInsideKey` | src/browser_tools/captures.py:138-145 | Otherwise two splits of the same bytes count different arrays |
| `CounterLaws.CountIsObjects` | src/browser_tools/captures.py:115-178 | For every JSON document and split with the key first, the count is the number of objects directly in the first array, whatever strings, escapes, nesting and trailing data surround it |
| `CounterLaws.CountIsTraceEvents` | src/browser_tools/captures.py:115-178 | For every JSON object whose first array is the value of traceEvents, and every split, the count is the number of objects directly in that array |
| `Uids.ParseMade` | src/browser_tools/native_snapshot.py:134-154 | Parsing a made UID gives back its token and its backend, no backend for a negative one |
| `Uids.ParseOrdinal` | src/browser_tools/native_snapshot.py:139-154 | An ordinal UID parses to its token and no backend |
| `Uids.NamedIffFirst` | src/browser_tools/native_snapshot.py:412-426 | A node is named by its DOM node exactly when it is the first of the walk to claim it, else by its ordinal |
| `Uids.MintedDistinct` | src/browser_tools/native_snapshot.py:412-426 | No two nodes of a walk share a UID |
| `Uids.AddressesApart` | src/browser_tools/native_interaction.py:332-353 | No two nodes of a walk resolve to the same document and DOM node |
| `Uids.ResolvedWithoutTree` | src/browser_tools/native_interaction.py:332-353 | Resolving a minted UID with no tree gives the node's own DOM node, only for the node that claimed it, and refuses a dead document |
| `Uids.SameUidAcrossTrees` | src/browser_tools/native_snapshot.py:412-426 | A DOM node first in two walks has the same UID in both |
| `Stitching.StitchAxFrames` | src/browser_tools/native_snapshot.py:565-644 | The loops over node lists and the owner table compute the stitched list |
| `Stitching.Take` | src/browser_tools/native_snapshot.py:608-620 | Nodes are appended stamped with their document, and the owner table stays the index of first owners |
| `StitchLaws.StitchIsOneTree` | src/browser_tools/native_snapshot.py:565-644 | With each owner in the page or an earlier frame, and no page id one that a frame brings under its prefix: one tree rooted at the page's root, ids all different, every input node once, and the document order of every input kept |
| `StitchLaws.StitchIsTreeIff` | src/browser_tools/native_snapshot.py:565-644 | With each owner in the page or an earlier frame, the result is one tree if and only if no page id is one that a frame brings under its prefix |
| `StitchPlaces.FrameHangsAtItsOwner` | src/browser_tools/native_snapshot.py:565-644 | In the result, the root of each frame hangs below the first node listed before it that was read from its owner's document and is its owner's DOM node, and below none if there is no such node |
| `CrossSessions.StitchAcrossSessions` | src/browser_tools/cdp_handler.py:1390-1452 | The loop over the documents stitches the frames that answered for both owner and tree, in the documents' order, and skips the others |
| `CrossSessions.EveryAnswerIsStitched` | src/browser_tools/cdp_handler.py:1390-1452 | The stitched frames are the documents in their order, each with the owner, the tree and the token that are its own; a document is left out only if its parent is unknown or one of the two was not answered |
| `CrossSessions.OwnersAreEarlier` | src/browser_tools/cdp_handler.py:1390-1452 | The order of the frame manager's documents is the one the stitch relies on: whatever was skipped, every owner comes earlier, as long as each frame read has its owner node in what was read of the frame above it |
| `CrossSessions.AcrossSessionsIsOneTree` | src/browser_tools/cdp_handler.py:1390-1452 | So a page read across sessions comes out as one tree rooted at the page's root, every frame read in it, each in its own document order |
| `StitchLaws.StitchKeepsNodes` | src/browser_tools/native_snapshot.py:565-644 | Whatever owners are found, the result lists every input node once, in order, with its own data and its document's stamp |
| `StitchLaws.StitchStepIsGraft` | src/browser_tools/native_snapshot.py:565-644 | One frame whose owner is found is a graft of its renamed tree at the owner |
| `Snapshots.Builder.MintUid` | src/browser_tools/native_snapshot.py:412-426 | The UID for the next node: its DOM node unless already claimed, else its ordinal |
| `Snapshots.Builder.Walk` | src/browser_tools/native_snapshot.py:428-464 | The recursive walk visits exactly the subtree in document order and leaves each node's finished record under its UID |
| `SnapshotReaders.NativeSnapshotReader.Build` | src/browser_tools/native_snapshot.py:371-475 | The snapshot lists the tree below the root in document order with distinct UIDs, finished records and no placeholder |
| `SnapshotReaders.NativeSnapshotReader.NoteNavigation` | src/browser_tools/native_snapshot.py:530-541 | A navigation drops the tree and starts a new generation |
| `SnapshotReaders.NativeSnapshotReader.BackendNodeForUid` | src/browser_tools/native_snapshot.py:525-528 | Lookup in the current tree |
| `SnapshotLaws.UidTreeIsInputTree` | src/browser_tools/native_snapshot.py:371-475 | Parent and child UIDs form exactly the input tree |
| `SnapshotLaws.TreeFreeAgrees` | src/browser_tools/native_interaction.py:332-353 | For each node, resolving with no tree agrees with the tree: its own backend, or none, and none only without a DOM node or after an earlier claim |
| `SnapshotLaws.UidNamesItsDocument` | src/browser_tools/native_snapshot.py:428-464 | Each listed node's UID carries the token stamped on that very node, the build's where it has none, and no DOM node but the node's own; its role and whether it is ignored are its own too |
| `SnapshotLaws.UidIsStable` | src/browser_tools/native_snapshot.py:412-426 | A node whose DOM node is unique in the walk has a UID that depends on that DOM node and its document alone |
| `SnapshotLaws.WholeTreeListed` | src/browser_tools/native_snapshot.py:371-475 | For a well-formed tree every node is listed once |
| `SnapshotLaws.StitchedSnapshot` | src/browser_tools/native_snapshot.py:495-510 | A stitched reply is one well-formed tree whose root is found by the builder, and the snapshot lists every node of every document |
| `SnapshotLaws.StitchedUids` | src/browser_tools/native_snapshot.py:565-644 | In the snapshot of a stitched page each node's UID carries the token of the document it was read from, wherever it was hung |
| `Login.LogIn` | src/browser_tools/login.py:295-358 | The login returns normally if and only if every awaited step went well, both fields were filled and submitted once, success was seen in time and neither clear was uncertain; a fill not refused before insertion is followed by a clear that comes last; the error has fields_may_remain if and only if the last clear was uncertain and no interrupt cut the run short. What is reported, and the calls made in the form, are one function each of what the environment answered |
| `LoginLaws.RefusalIsReportedIff` | src/browser_tools/login_contract.py:377-463 | A refusal by the form, the fill or the submission reaches the caller, in the page's own words, if and only if it stopped the work and nothing after it outranked the report; with the warning beside it exactly when the fields are in doubt |
| `LoginLaws.UnansweredIsUncertain` | src/browser_tools/login_contract.py:377-463 | A fill or a submit that was never answered is reported by what the clear after it found, document replaced and cleared told apart, and never as a refusal |
| `LoginLaws.UnmetIsReported` | src/browser_tools/login.py:556-575 | A submission whose success was not seen is reported as that, unless the wait itself broke down or the fields are in doubt |
| `LoginLaws.EarlyEndsAreTheirOwn` | src/browser_tools/login.py:455-527 | What ends the work before anything was sent to the form is reported as what it was: time that ran out, a failed session, a replaced document |
| `Login.Transaction.Run` | src/browser_tools/login.py:295-358 | The same of the transaction on its session, teardown included |
| `Login.Transaction.OnSession` | src/browser_tools/login.py:361-452 | The flag survives dialog close and cancellation of the work: it is there if and only if the last clear was uncertain and no interrupt cut the session short |
| `Login.Transaction.Handle` | src/browser_tools/login.py:403-452 | Each exception of the work clears once if fields may hold anything, and its diagnosis carries the flag exactly when that clear was uncertain |
| `Login.Transaction.Settle` | src/browser_tools/login.py:403-452 | What a stopped session leaves is what its answers alone say it leaves, and so is the one clear it may still make |
| `Login.Transaction.Work` | src/browser_tools/login.py:361-402 | The body, the post-submit clear, the wait for success and the final clear |
| `Login.Transaction.Body` | src/browser_tools/login.py:455-527 | At most one fill and one submit, in that order, and the state they leave behind |
| `Login.Transaction.Finalize` | src/browser_tools/login.py:530-553 | Clears exactly when something was dispatched. Of what is reported: the warning exactly when that clear is uncertain; nothing exactly after observed success with a certain clear or a cancellation with nothing left to say; a page's refusal only if it was the recorded cause; and what was dispatched without an answer never as a refusal and never silently |
| `LoginContract.DiagnosisIsReported` | src/browser_tools/login_contract.py:377-463 | The mapping from progress, cause and clear to the report says just that |
| `Login.Transaction.AwaitSuccess` | src/browser_tools/login.py:556-575 | Success is recorded exactly when a poll saw it in time |
| `Login.Transaction.TryClear` | src/browser_tools/login.py:578-603 | A clear is confirmed exactly when the page said so; the document counts as replaced exactly when the call failed and the document was seen to be another; all else but an interrupt is uncertain |
| `Relay.PipeReader.Run` | src/browser_tools/credential_relay.py:186-203 | The reader's loop over any schedule of turns |
| `Relay.PipeReader.Finish` | src/browser_tools/credential_relay.py:208-227 | The verdict once the reader has been waited for |
| `Relay.SecretIsWhole` | src/browser_tools/credential_relay.py:388-456 | For every schedule, a returned value is every byte ever written to the pipe, in order, at most 64 KiB, the child exited with 0, and nobody can write another byte |
| `Relay.ReaderVerdict` | src/browser_tools/credential_relay.py:208-227 | The reader refuses exactly a value that is too long, a pipe that cannot be read or one that someone still holds open |
| `Relay.TooLongIsNeverReturned` | src/browser_tools/credential_relay.py:186-203 | Once more than 64 KiB has been written no continuation returns a value |
| `Relay.RefusalHasItsCause` | src/browser_tools/credential_relay.py:388-456 | Over every schedule, what a refusal says is so: a cancellation was asked for, more than 64 KiB was written, the time was over, the reader failed or was waited for, the child exited with another code than 0 or never started |
| `Relay.UntroubledRunReturns` | src/browser_tools/credential_relay.py:388-456 | Over every schedule with no cancel, no lateness, no read error, exit code 0 and at most 64 KiB, nothing is refused; and once the reader has ended, the owner's next two steps return every byte written |
| `Relay.WholeValueIsReturned` | src/browser_tools/credential_relay.py:388-456 | The same from any point of such a run |
| `Deadlines.Runtime.SetDeadline` | src/browser_tools/cdp_handler.py:447-450 | A new deadline opens a new grace |
| `Deadlines.Runtime.BoundedTimeout` | src/browser_tools/cdp_handler.py:488-527 | A call before the deadline gets what it asked for or what is left, whichever is less; the first late call opens one grace of 5 seconds, and a late call gets what is left of it, never less than 0.25 seconds |
| `Deadlines.EndsByTheDeadline` | src/browser_tools/cdp_handler.py:488-527 | A call that starts before the deadline ends by it |
| `Deadlines.LateCallsEnd` | src/browser_tools/cdp_handler.py:488-527 | The n-th late call ends by the first one's start + 5 + 0.25 (n - 1) |
| `Deadlines.RunEnds` | src/browser_tools/cdp_handler.py:488-527 | The same measured from the deadline, over a whole run |
| `Deadlines.TheBoundIsMet` | src/browser_tools/cdp_handler.py:488-527 | Calls that take all they are given end exactly there: no smaller bound holds |
| `Domains.Session.DomainsEnabled` | src/browser_tools/one_shot.py:83-143 | The two loops leave the session and its commands as Bracketed says |
| `Domains.BracketAsksAndGivesBack` | src/browser_tools/one_shot.py:83-143 | One bracket under any answers: every domain asked for is sent an enable unless one that was lost or cut short stopped it, a refusal not; and every enable that was answered, of a domain neither the run's nor the caller's, is followed by its disable unless a disable that was cut short stopped that |
| `Domains.BracketIsNested` | src/browser_tools/one_shot.py:83-143 | Under any answers a bracket asks for each domain once, in the order in which they were named, and gives them back in the opposite order |
| `Domains.RawStepIsSent` | src/browser_tools/step_list.py:324-337 | A raw step that turns a domain on is sent and recorded as the caller's; one that turns a domain off is sent unless the run keeps that domain on; no other touches one |
| `Domains.NeverUndoesTheCaller` | src/browser_tools/one_shot.py:128-143 | Over every run and every answer, no bracket disables a domain the run owns or the caller has turned on |
| `Domains.RunRespects` | src/browser_tools/cdp_handler.py:471-486 | Each bracket's disable is of a domain that it turned on itself, after the caller's last command |
| `Domains.EveryEnableIsFirst` | src/browser_tools/one_shot.py:83-143 | Over every run whose disables work: each step finds each domain outside the run's and the caller's off, so that its enable is a first enable, if and only if no enable of a bracket took effect without its answer arriving |
| `Domains.BracketTidyIff` | src/browser_tools/one_shot.py:83-143 | Of one bracket whose disables work: it leaves the session as tidy as it found it if and only if no enable it sent for a domain not the run's or the caller's took effect without its answer arriving |
| `Domains.RunTidyIff` | src/browser_tools/one_shot.py:83-143 | The same over a run from any tidy state |
| `Domains.LostEnableStaysOn` | src/browser_tools/one_shot.py:131-138 | One such enable, at any point of any run, leaves its session untidy after the step, though every disable works |
| `Domains.LostLogStaysOn` | src/browser_tools/one_shot.py:131-138 | For one: the first step's enable of Log takes effect and its answer is lost, and Log stays on |
| `Profiles.ProfilesAreExclusive` | src/browser_tools/lifecycle.py:1159-1276 | Over every interleaving of launches, stops, timely retirements, clean-ups and browser exits: no profile has two live browsers, every live browser has its annotated entry or a launch that holds the lock, and one process at most is inside the lock |
| `Profiles.RefusedIffHeld` | src/browser_tools/lifecycle.py:499-513 | A second launch is refused exactly while a live browser has the profile |
| `Profiles.NestedStep` | src/browser_tools/lifecycle.py:380-428 | For a launch that annotates and a stop that removes its entry: entering the lock again does not take it, and leaving that entry does not release it |
| `Profiles.AnnotateStep` | src/browser_tools/lifecycle.py:287-309 | The annotation's load, edit and save loses nobody's entry and pairs the browser with its profile |
| `Profiles.NoUpdateIsLost` | src/browser_tools/lifecycle.py:287-309 | Whatever runs beside it, a save leaves in the file what the file said at that moment with that one change: an annotation, a removal, and of a clean-up the removal of an entry whose browser is gone |
| `Profiles.RegistrationIsExact` | src/browser_tools/lifecycle.py:1159-1276 | A launch's first entry goes in under a name nobody has, beside everything the file said |
| `Profiles.EditStep` | src/browser_tools/lifecycle.py:1451-1469 | A timely retirement, a clean-up or a supervisor's record keeps every live browser accounted for |
| `Profiles.StopStep` | src/browser_tools/lifecycle.py:1729-1757 | A stop that verified the exit while it held the lock removes its entry, and every live browser stays accounted for |
| `Profiles.RetireIff` | src/browser_tools/lifecycle.py:1551-1592 | A retirement that reaches its save keeps every live browser accounted for if and only if what its name stands for by then is gone |
| `Profiles.RetireOfOwnEntry` | src/browser_tools/lifecycle.py:1551-1592 | It is so whenever the name is gone by then or still the retired browser's own |
| `Profiles.AccountedIff` | src/browser_tools/lifecycle.py:1551-1592 | Over whole runs: no live browser is ever unaccounted for if and only if every retirement is timely |
| `Profiles.StaleRetirement` | src/browser_tools/lifecycle.py:1551-1592 | A run from nothing in which a retirement decided before the lock removes the entry of a second launch under the same name: that browser runs with no entry, and the next launch puts a second one on the profile |
| `Migration.VerifyTransfer` | src/browser_tools/lifecycle.py:767-795 | True exactly when the copy has every regular file with its size, and each login-bearing one that can be read, links followed, reads the same byte for byte |
| `Migration.Disk.TransferProfile` | src/browser_tools/lifecycle.py:808-837 | At every state of the disk each login-bearing file is at the source or at the destination byte for byte, no other profile changes, an existing destination is left alone; and what the file system did decides the end: moved if and only if the copy got in place and the source was cleared, refused with the copy in place if and only if it got there and clearing left something |
| `Migration.RefusedThoughMoved` | src/browser_tools/lifecycle.py:798-837 | One such transfer: a cookie file copied whole and a source that could not be cleared |
| `Migration.Disk.MigrateProfiles` | src/browser_tools/lifecycle.py:840-907 | A profile is listed as migrated if and only if nobody holds it, its name is free and, unless this is a dry run, the copy got into place and the source was cleared, all told from the state before the call; each refused one is as it was, or lost only lock files, or has its whole copy in place and what clearing left of the source; and every login is somewhere at every state of the disk |
| `Migration.SmoothIsMigrated` | src/browser_tools/lifecycle.py:798-837 | A profile that nobody holds, whose name is free and for which nothing goes wrong counts as migrated: at the destination entry for entry but for the stale locks, and gone from the source |
| `Migration.MovedHoldsEveryFile` | src/browser_tools/lifecycle.py:767-795 | Whatever the file system did, a profile that counts as moved has each regular file at the destination with its size, and the login-bearing ones byte for byte |

## Left out

- The event buffer, `to_dict`, `get_frame_tree`, `restore_selection`, a frame's name and security origin, and the wording of messages: nothing proved here depends on them.
- FrameManagers.FrameManager.ForgetSession: returns the frames as a set; the order of the returned list is not modelled.
- The URL pattern match is a parameter, so lower-casing and substring search are not modelled; `doc_token` is a function left open that gives hyphen-free text, so SHA-256 is not.
- `int` on a UID's digits is modelled for ASCII digits only; `str.isdigit` accepts more.
- Raw accessibility nodes without a `nodeId`, and node names, values and carried properties, are not modelled.
- `FrameSession.depth` and subscriptions: written and not read elsewhere in the code modelled.
- `FrameSessions.close` and cancelled setup tasks: after close there is nothing to keep.
- Discovery.SettledCoversEveryDepth: assumes in-order delivery, no detach, and replies that hold a renderer's own frames; what a page that changes during discovery leads to is covered by SessionsStayBounded and OneTreeOverSessions only.
- DropLaws.LeftBehindIff: asks that no session whose own frame the departed one answered for answers for frames itself, which every reply rooted at its own target ensures (OwnFrames.DeparturesAreExact). After replies that are not, DropTakes bounds what goes from both sides.
- Resplicing.OrderDoesNotMatter: the outcome leaves open the order of children, which does follow the order of sessions. The depth bound is not applied again to a held tree, in the code or here.
- Resplicing.OrderMattersIff: asks that a held tree whose placeholder is mapped names a mapped parent; a reply that names another parent than its placeholder has, not mapped yet, is left out of the converse.
- Login.LogIn: an interrupt that is not an `Exception` can replace the flagged error; the contract says for which environments. Reading the policy, the page's script and the dialogs' start are the environment's answers.
- The clock of the login is not a number: an awaited call or a poll is answered in time or not.
- Deadlines.Runtime.BoundedTimeout: over real numbers; the clamp that the code applies against binary rounding is modelled, rounding is not.
- Domains.Session.DomainsEnabled: the body of a bracket sends no enable or disable of its own, and brackets of one session do not overlap.
- Relay: signals, process groups and reaping are not modelled; a process lets go of the pipe at any moment, and may never do so.
- Profiles: one registry file; liveness of an entry is exact; a launch does not crash between starting its browser and annotating it; instances without a profile, supervisors' records and leases do not take part; a stop that finds its browser still running gives up before it removes anything.
- `cleanup`'s second lock section, which runs after liveness was read, is not modelled.
- Migration: what a link leads to, followed from the source and from the copy, is a parameter of the transfer, so a link is verified as the code verifies it, but what becomes of the file behind it is not modelled; files that cannot be stat'ed, directories' own metadata, and a broken link at the destination are not modelled; nobody writes to a source that no live instance holds.
- `migrate_one_profile` is one `TransferProfile` behind the same two checks.
- Transports, subprocess calls, screenshots, heap capture, argument parsing and rendering: input and output.
- `_stop_managed` and `_browser_exit_verified`: reading processes and listeners is an oracle that a stop consults under the lock and a supervisor before it.
- Snapshots.Builder.Walk: replies in which a node is under two parents, which the source walks twice, or which have a cycle, on which it does not end, are not modelled.
- SnapshotReaders.NativeSnapshotReader.Build: the same, as it is that walk from the root.
- CrossSessions.StitchAcrossSessions: the answers of the sessions are a parameter; what the page's own session answers is one tree, and its failure, which ends the read, is not modelled.
- `_iter_child_frames` and `live_doc_tokens` over a plain frame tree reply: the order they give is the one OwnersComeFirst proves of the frame manager's list, and the live tokens are a parameter.
