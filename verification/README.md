# OpenPodium: verified models of its stateful cores

OpenPodium is a desktop canvas for agents, notes, terminals and automation portals. This project models the parts of
it that carry the most state and proves what they keep over every input and every run:

- **Calendar** - the closed form that turns day counts into calendar dates, against counting days one by one
  (RFC 3339, section 5.7 and Appendix C).
- **RateLimiter** - the notification limiter as an optimal greedy choice.
- **PortalSession, PortalUi, PortalMoves, PortalProtocol, PortalSafety, PortalEffects, PortalTicks** - automation
  portals: the session's observation revisions, and the protocol between the interface and its background tasks. The
  handlers are modelled as written; sixteen atomic moves carry the safety proof; every handler is shown to be made of
  moves. Effects and ticks say the other half: what each command, message and tick does bring about.
- **CanvasLayout, CanvasSelection, CanvasGeometry, CanvasAlignment, CanvasStructure, CanvasStacking, CanvasCopying,
  CanvasPasting, CanvasHistory, CanvasEdits** - the canvas editor: every operation on nodes, groups and connections, and the
  undo and redo history with the handlers that drive it. `StableSort` is the sort they share.
- **Occlusion** - which parts of overlapping cards show their text, as half-open point sets over the reals.
- **NoteBuffer, Utf8, ContextNodes, NoteRuns, NoteEffects** - a note editor over a file that others write, with a
  background scan; `Utf8` ties its check of the text to the encoding itself (RFC 3629).
- **SearchIndex, SearchProgress** - the bookkeeping that keeps the search index honest across removals and late
  builds, and that brings every workspace up to date.
- **Credentials, CredentialRules** - the loop that scrubs prefixed credentials out of diagnostics, and what counts as
  a credential.

Objects that the program updates in place are classes whose methods are proved against a specification function of
the old state; the theorems are lemmas about those functions, about sequences of events, and about states of the
interface together with its tasks. Input and output, clocks and the answers of the journal, the disk and the portal
backends are parameters of the events. The points where the program does something a reader may not expect are stated
exactly:

- `editor::connect` itself accepts connecting a node with itself, which is no canvas of the domain. Its only caller,
  `connect_nodes`, refuses that first, so no run gets there. `ConnectIsExact` says that the result is well-formed if
  and only if the two nodes differ, `SelfConnectionIsIllFormed` gives the smallest case.
- A card split by occluders into more than four pieces loses the pieces after the fourth. The regions that are left
  show every uncovered point if and only if each dropped piece is hidden by the occluders still to come:
  `ShowsAllIffLosesNothing`, and for the drawn cards `CardShowsWhereTopmost`. `TruncationHidesVisiblePoint` gives two
  small cards that hide a visible strip, `TruncationCanBeHarmless` a third one under which nothing is lost.
- A note can be saved that cannot be opened again, because saving checks neither the size nor zero bytes:
  `SavedNoteReadsBack` says exactly when a saved note reads back, and `SavedNoteIsStuckIffUnreadable` that otherwise
  every later save, overwriting or not, and every reload fails until somebody else writes the file.
- Grouping takes the selected identifiers as they are, so a selection of which a node is gone gives no canvas; all
  other actions ignore such an identifier (`ActionsKeepWellFormed`).
- Pasted copies are stacked by identifier, so they can lie the other way round than their originals:
  `PasteKeepsStackingIff` says exactly when they do not.

`dafny verify dfyconfig.toml` checks the whole project.

## Model

| member | source | states |
|---|---|---|
| Calendar.CivilFromDaysCountsDays | src/routines_panel.rs:460-477 | for every integer, the conversion gives an existing date that lies exactly that many days from 1970-01-01, counting years and months one by one |
| Calendar.CivilFromDaysInvertsDayNumber | src/routines_panel.rs:460-477 | converting the day count of any existing date gives the date back |
| Calendar.CivilFromDaysStepsThroughCalendar | src/routines_panel.rs:460-477 | day 0 is the Unix epoch, and each following day number is the calendar successor |
| Calendar.CivilFromDaysIsStrictlyIncreasing | src/routines_panel.rs:460-477 | day numbers and dates are ordered alike, in both directions |
| Calendar.NextDayCounts | src/routines_panel.rs:445-447 | the reference calendar: a successor exists and is one day later |
| Calendar.DayNumberIsMonotone | src/routines_panel.rs:445-447 | the reference day count is strictly monotone in chronological order |
| Calendar.EraDecomposition | src/routines_panel.rs:461-465 | every day of a 400-year era lies in one century, four-year cycle and March-based year |
| Calendar.YearOfEraIsRight | src/routines_panel.rs:464-465 | the nested divisions find the year of the era |
| Calendar.FromMarchIsRight | src/routines_panel.rs:467-476 | the month formula gives an existing date for each day of a March-based year |
| Calendar.FormatInstantNamesTheMinute | src/routines_panel.rs:448-458 | a rendered instant is the UTC minute containing it for every 64-bit millisecond count, without leaving 64 bits on the way |
| RateLimiter.NotificationRateLimiter.ShouldSend | src/supervisor.rs:472-495 | sends exactly when the rule is enabled and its cooldown, clamped to 64 bits, has passed since the remembered time, and remembers what it sends |
| RateLimiter.RemembersLatestSent | src/supervisor.rs:466-495 | after any run the memory of a key is the latest event sent for it |
| RateLimiter.SentAreSpaced | src/supervisor.rs:472-495 | two events sent for a key are at least the rule's own cooldown apart, clamped to 64 bits |
| RateLimiter.SuppressedIsRecent | src/supervisor.rs:472-495 | an event held back falls within the rule's own cooldown of an earlier one that was sent |
| RateLimiter.GreedyStaysAhead | src/supervisor.rs:472-495 | against every selection separated by the rule's own cooldown, the limiter has no fewer events and, at equal number, the earlier last one |
| RateLimiter.GreedyIsOptimal | src/supervisor.rs:472-495 | no selection of the events that is separated by the rule's own cooldown is larger |
| RateLimiter.SentIffSpaced | src/supervisor.rs:472-495 | exactly those events are sent whose class is enabled and that keep the rule's own cooldown from every event sent before |
| RateLimiter.SentAreSelection | src/supervisor.rs:472-495 | the events that are sent are themselves such a selection |
| RateLimiter.SentOfIsSent | src/supervisor.rs:472-495 | that selection holds exactly the events of the key that are sent, as many as are counted |
| PortalSession.PortalSession.BeginConnect | src/portal.rs:654-663 | connects only from disconnected, with the error otherwise |
| PortalSession.PortalSession.FinishConnecting | src/portal.rs:665-674 | becomes connected only while connecting |
| PortalSession.PortalSession.Observe | src/portal.rs:676-683 | a connected session moves to the next revision and drops the stored observation |
| PortalSession.PortalSession.RecordObservation | src/portal.rs:685-700 | stores an observation only at the current revision, with the two errors |
| PortalSession.PortalSession.Disconnect | src/portal.rs:702-708 | disconnects, drops the observation and moves the revision on |
| PortalSession.PortalSession.AcceptsRevision | src/portal.rs:710-725 | accepts exactly the current revision of a connected session |
| PortalSession.PortalSession.BeginClose | src/portal.rs:727-739 | closes unless closed or disconnected |
| PortalSession.PortalSession.FinishClosing | src/portal.rs:741-744 | closed from any state |
| PortalSession.StoredObservationIsCurrent | src/portal.rs:676-708 | over any run a stored observation carries the current revision |
| PortalSession.StoredIsLastRecorded | src/portal.rs:676-708 | over any run, what is stored is the last observation recorded while connected at its revision, unless a new observation or a disconnection came after it |
| PortalSession.RevisionCountsAdvances | src/portal.rs:676-708 | the revision is the start plus the number of advances, modulo 2^64 |
| PortalSession.AcceptedIffWrapped | src/portal.rs:714-725 | after any run a revision is accepted exactly when the session is connected and the advances since are a multiple of 2^64 |
| PortalSession.AcceptedIffNothingIntervened | src/portal.rs:676-725 | with fewer than 2^64 advances, an observed revision is accepted later exactly when no observation, disconnection or closing came between |
| PortalSession.RetiredStaysRetired | src/portal.rs:654-744 | a run with a retiring operation never ends connected at the same revision count |
| PortalUi.PortalUi.Connect | src/app/portals.rs:604-653 | one connecting session and one task for an unconnected portal node of the active workspace, nothing otherwise |
| PortalUi.PortalUi.Connected | src/app/portals.rs:655-684 | admits a result only into a waiting session of an unchanged node; unregisters the id in all other cases (`PortalEffects.ConnectionIsAdmittedIffCurrent` says on the state when it admits) |
| PortalUi.PortalUi.BeginDisconnect | src/app/portals.rs:704-734 | a connected session, busy or not, starts disconnecting with one unregister task |
| PortalUi.PortalUi.Disconnect | src/app/portals.rs:686-702 | disconnects the node's session of the active workspace |
| PortalUi.PortalUi.Disconnected | src/app/portals.rs:736-764 | removes the session disconnecting under that id, with its frame and focus when its workspace is active |
| PortalUi.PortalUi.FrameCaptured | src/app/portals.rs:766-818 | ignores foreign ids, disconnects on failure or a left workspace, else shows the frame, becomes idle and starts the next queued action |
| PortalUi.PortalUi.StartAction | src/app/portals.rs:820-855 | marks the session busy and starts the action task |
| PortalUi.PortalUi.ActionCompleted | src/app/portals.rs:857-883 | ignores foreign ids; a failure clears the queue, a success starts the next action |
| PortalUi.PortalUi.Execute | src/app/portals.rs:322-351 | refuses without a connected session, queues while busy, starts the action otherwise |
| PortalUi.PortalUi.TickOf | src/app/portals.rs:210-263 | disconnects a stale session, captures on an idle one when its frame rate is due |
| PortalUi.PortalUi.TickOfAll | src/app/portals.rs:210-263 | treats the sessions of a list of keys in turn, with their tasks in the same order |
| PortalUi.PortalUi.Tick | src/app/portals.rs:188-263 | advances the clock and treats exactly the stored sessions in key order |
| PortalUi.KeysAreInOrder | src/app/portals.rs:208 | the keys of the sessions are visited once each, by workspace and then by node |
| PortalUi.CaptureIntervalIsLeast | src/app/portals.rs:235 | the capture interval is the least number of ticks, at least one, in which the frame rate asks for a frame |
| PortalProtocol.StepIsMoves | src/app/portals.rs:188-883 | every handler, tick and backend step is some enabled moves one after the other |
| PortalProtocol.ResultFindsItsSession | src/app/portals.rs:655-684 | a result of connecting always finds its session still connecting |
| PortalProtocol.TickGoesOn | src/app/portals.rs:206-270 | a tick can be handled one session at a time, with its tasks in the same order |
| PortalProtocol.LeadsOn | src/app/portals.rs:188-883 | runs of moves compose |
| PortalMoves.MoveKeepsSafe | src/app/portals.rs:604-883 | every enabled move keeps the whole invariant: ownership of ids, pairing of connecting tasks, one operation at a time, queues in order, closing tasks |
| PortalMoves.MoveKeepsOwned | src/app/portals.rs:655-764 | every move keeps one owner for each registered id |
| PortalMoves.MoveKeepsOneAtATime | src/app/portals.rs:322-883 | every move keeps busy equal to having exactly one capture or action under way |
| PortalMoves.MoveReplays | src/app/portals.rs:322-883 | what a move leaves in the queue is what its log leaves of the accepted actions |
| PortalMoves.ReplayMore | src/app/portals.rs:322-883 | replaying a longer log is replaying the rest from the queue reached |
| PortalMoves.LoggedKeepsInOrder | src/app/portals.rs:322-883 | changing the queue and the log of one id keeps all queues in order |
| PortalSafety.RegisteredIdsAreOwnedOnce | src/app/portals.rs:604-764 | in every run each registered id is with exactly one connecting task, or exactly one connected session, or has exactly one unregister scheduled, and no other id has any |
| PortalSafety.OwnerIsUnique | src/app/portals.rs:949-1002 | the same from the ownership invariant, abandoned and aborted connections included |
| PortalSafety.OperationsAreSerial | src/app/portals.rs:188-351 | in every run a connected session has at most one capture or action under way, is busy exactly then, has nothing queued when idle, and queues what its log leaves of the accepted actions |
| PortalSafety.ActionsKeepTheirOrder | src/app/portals.rs:322-883 | in every run actions of an id are dispatched in the order accepted; only a failed action sweeps queued ones away |
| PortalSafety.NoSessionIsForgotten | src/app/portals.rs:604-764 | a connecting session has exactly one connecting task, a disconnecting one its unregister task, and no other session has a connecting task |
| PortalSafety.LateMessagesChangeNothing | src/app/portals.rs:736-883 | a message about an id that the session at its key does not have changes no session, frame or focus, and starts nothing |
| PortalSafety.MessagesReachTheirOwnSession | src/app/portals.rs:736-883 | in every run a message changes no session but the one disconnecting under its id, or connected under its id and busy |
| PortalSafety.TickDisconnectsStrays | src/app/portals.rs:206-221 | after a tick every connected session belongs to a visible portal node with unchanged settings |
| PortalSafety.EveryRunIsSafe | src/app/portals.rs:188-883 | the invariant holds at the end of every run |
| PortalEffects.ConnectionIsAdmittedIffCurrent | src/app/portals.rs:655-684 | in every run a result finds its session connecting and its id never released; the session comes to be connected under the id, idle, if and only if its workspace is active and the node still has its settings; otherwise it is gone and the id is released once |
| PortalEffects.DeliveryAdmitsIffCurrent | src/app/portals.rs:655-684 | the same as an equation on the whole state, whatever led to it |
| PortalEffects.FailureIsForgotten | src/app/portals.rs:678-681 | a failed connection takes its session away and starts nothing |
| PortalEffects.ConnectOpens | src/app/portals.rs:604-653 | connecting opens one session with the settings of the node, and one task, exactly when the active workspace has that portal node and it has no session |
| PortalEffects.DisconnectCloses | src/app/portals.rs:686-734 | disconnecting ends a connected session, busy or not, and schedules one unregister; nothing otherwise |
| PortalEffects.ExecuteDispatches | src/app/portals.rs:322-351 | an idle session dispatches an action at once and becomes busy |
| PortalEffects.ExecuteQueues | src/app/portals.rs:346-349 | a busy session puts an action at the end of its queue |
| PortalEffects.ExecuteRefuses | src/app/portals.rs:338-345 | without a connected session an action changes nothing |
| PortalEffects.FrameIsShown | src/app/portals.rs:766-808 | a captured frame of its own session is shown; the session is idle again, or dispatches the first queued action |
| PortalEffects.FailedFrameCloses | src/app/portals.rs:776-817 | a failed capture, or one that comes back to another workspace, ends its session with one unregister |
| PortalEffects.ActionGoesOn | src/app/portals.rs:857-883 | after a successful action the session goes on with its queue; after a failed one it is idle with nothing queued |
| PortalEffects.UnregisteredIsGone | src/app/portals.rs:736-764 | once its id is unregistered a session is gone, with its frame and focus when its workspace is active |
| PortalEffects.ConnectingConnects | src/app/portals.rs:604-684 | connecting, registering, establishing and delivering lead to a session connected under the id given out, with the settings of the node, and leave no task |
| PortalEffects.DisconnectingRemoves | src/app/portals.rs:686-764 | disconnecting and its delivery take session, frame and focus away and release the id |
| PortalTicks.TickTreatsSession | src/app/portals.rs:206-263 | a tick disconnects exactly the connected sessions whose node has gone or changed, captures exactly the idle current ones whose interval divides the clock, and starts one task for each of them and none for any other |
| PortalTicks.TickKeepsState | src/app/portals.rs:188-263 | a tick advances the clock and keeps keys, frames, focus and all tasks under way |
| PortalTicks.TickStartsInOrder | src/app/portals.rs:206-263 | the tasks of a tick start by workspace and then by node |
| StableSort.SortSorts | src/domain/entities.rs:555-557 | the stable sort orders by any total preorder |
| StableSort.SortIsStable | src/canvas/editor.rs:515-544 | sorting by one key and then another orders lexicographically |
| StableSort.SortKeepsElements | src/domain/entities.rs:555-557 | the sort is a permutation |
| StableSort.AscendingListIsUnique | src/canvas/editor.rs:151-227 | a set has one ascending list, the order in which maps and sets are read out |
| CanvasLayout.NewLayoutOfAscending | src/domain/entities.rs:549-563 | building a layout from lists in id order keeps them |
| CanvasLayout.MaxKeyIsUpperBound | src/canvas/editor.rs:645-651 | the next id is above every id in use unless the counter saturates |
| CanvasLayout.NextIdIsOneAbove | src/canvas/editor.rs:645-651 | the next id is one above the largest in use, or 1 when there is none, unless the counter saturates |
| CanvasLayout.FilterKeepsConnectionsFit | src/domain/workspace.rs:1918-1955 | connections stay valid when other nodes and connections are left out |
| CanvasSelection.ExpandedSelection | src/canvas/editor.rs:572-580 | the loop grows the selection by each touched group |
| CanvasSelection.ExpandedIsLeastGroupClosed | src/canvas/editor.rs:572-580 | on disjoint groups the expansion is the least group-closed superset |
| CanvasSelection.ExpandFromAddsTouchedGroups | src/canvas/editor.rs:572-580 | a node is added exactly when its group is touched |
| CanvasSelection.ExpandFromIsIdempotent | src/canvas/editor.rs:572-580 | expanding twice is expanding once |
| CanvasSelection.ExpandedStaysOnCanvas | src/canvas/editor.rs:572-580 | only nodes of the canvas are added |
| CanvasGeometry.SnapIsNearestGridLine | src/canvas/editor.rs:641-643 | snapping goes to the nearest grid line, halfway to the one farther from zero, and keeps grid lines |
| CanvasGeometry.GridLineIsAt | src/canvas/editor.rs:8 | grid lines lie 20 apart, from zero on |
| CanvasGeometry.MapLayoutKeepsWellFormed | src/canvas/editor.rs:546-562 | changing geometry or stacking alone keeps ids, graph and well-formedness |
| CanvasGeometry.MoveTranslatesSelection | src/canvas/editor.rs:94-126 | a move shifts exactly the expanded selection by one vector within half a grid step of the request, and puts the lowest id on the grid |
| CanvasGeometry.MoveIsIdempotentAtRest | src/canvas/editor.rs:94-126 | moving again by nothing changes nothing |
| CanvasAlignment.ResizeIsBoundedBelow | src/canvas/editor.rs:128-149 | a resize changes one size only, to the nearest grid step, or to 240 by 160 where that is smaller, and keeps well-formedness |
| CanvasAlignment.ListedIsSelection | src/canvas/editor.rs:457-465 | exactly the expanded selection is aligned, each node once |
| CanvasAlignment.PlacementsCenterAll | src/canvas/editor.rs:467-513 | listed nodes are centered near their targets, others stay |
| CanvasAlignment.AlignCentersSelection | src/canvas/editor.rs:452-513 | alignment keeps the number of nodes and the graph and moves only the expanded selection along one axis, onto the grid, with each center within half a grid step of its target: the mean of all centers, or for a distribution equal steps from the first center to the last, in the order of the centers |
| CanvasAlignment.TargetsAreEven | src/canvas/editor.rs:467-513 | the targets are the mean of the centers, or run from the first center to the last in equal steps |
| CanvasAlignment.SpreadIsInOrder | src/canvas/editor.rs:586-599 | a distribution lists nodes by center, and nodes with the same center by id |
| CanvasStructure.RemoveIsExact | src/canvas/editor.rs:330-359 | removal takes the selected nodes, their connections and the groups left too small, nothing else, leaves the other groups under their ids, and keeps well-formedness |
| CanvasStructure.GroupingIsExact | src/canvas/editor.rs:361-390 | grouping puts exactly the selected nodes together under a group id unused on any floor, separates them from former groups, leaves all other pairs, and keeps well-formedness |
| CanvasStructure.FewAreNotGrouped | src/canvas/editor.rs:361-390 | fewer than two selected nodes make no group |
| CanvasStructure.GroupingNeedsNodes | src/canvas/editor.rs:361-390 | grouping a selection of which a node is gone gives no canvas the domain accepts |
| CanvasStructure.ShrinkSeparates | src/canvas/editor.rs:361-390 | nodes taken out of groups are with nobody, the others stay together as they were |
| CanvasStructure.UngroupIsExact | src/canvas/editor.rs:392-404 | exactly the groups holding a selected node dissolve |
| CanvasStructure.ConnectIsExact | src/canvas/editor.rs:406-450 | a connection is made exactly when both nodes exist, are not connected that way and admit a kind, of that kind and under a connection id unused on any floor; the result is well-formed if and only if they differ |
| CanvasStructure.ConnectRefuses | src/canvas/editor.rs:411-433 | why a connection is refused: the first reason that holds |
| CanvasStructure.BetweenIsKindOf | src/domain/entities.rs:475-499 | which kind of connection joins which contents; a task is not connected to an agent |
| CanvasStructure.SelfConnectionIsIllFormed | src/canvas/editor.rs:406-450 | one agent alone on the canvas can be connected with itself, and the result is no canvas of the domain |
| CanvasStacking.ChangeZOrder | src/canvas/editor.rs:515-544 | the two stable sorts and the numbering compute the restacked layout |
| CanvasStacking.NumberNodes | src/canvas/editor.rs:530-534 | the numbering loop gives each node its position |
| CanvasStacking.StackedIsLexicographic | src/canvas/editor.rs:524-529 | the two sorts order by class and then by old depth |
| CanvasStacking.RestackedIsRestacking | src/canvas/editor.rs:515-544 | z indexes become 0 to n-1 without gaps, the expanded selection is wholly above the rest when brought to the front and wholly below it when sent to the back, and old order stays inside both parts |
| CanvasStacking.RestackedIsIdempotent | src/canvas/editor.rs:515-544 | restacking twice is restacking once |
| CanvasStacking.SameOrderSameNumbers | src/canvas/editor.rs:530-534 | a gapless numbering is determined by its order |
| CanvasCopying.Duplicate | src/canvas/editor.rs:151-227 | the loops over nodes, groups and connections compute the duplicated canvas and selection |
| CanvasCopying.PasteFragment | src/canvas/editor.rs:255-328 | the loops compute the pasted canvas and selection |
| CanvasCopying.CopyChosenInto | src/canvas/editor.rs:174-198 | the counter loop keeps what was there, appends a copy of each chosen node 40 further right and down with its content and size, and records the id map |
| CanvasCopying.FragmentIsFilter | src/canvas/editor.rs:229-253 | a fragment is the selection with its whole groups and internal connections |
| CanvasCopying.DuplicateIsPasteOfFragment | src/canvas/editor.rs:151-328 | duplicating a selection and pasting its fragment give the same canvas and the same new selection |
| CanvasPasting.PasteEmbeds | src/canvas/editor.rs:255-328 | pasting embeds an isomorphic copy under ids unused anywhere: each copy has its original's content, width and height, lies 40 further right and 40 further down, and is stacked upwards from one above the highest z index in id order; it keeps the old part, selects exactly the copies, and gives a canvas the domain accepts |
| CanvasPasting.DuplicateEmbeds | src/canvas/editor.rs:151-227 | duplicating embeds such a copy of exactly the group-expanded selection, the groups among it and the connections inside it, keeps the old part and selects the copies; without an existing selected node nothing changes |
| CanvasPasting.PasteKeepsStackingIff | src/canvas/editor.rs:268-296 | the copies keep the mutual stacking of their originals if and only if the originals were stacked in id order |
| CanvasPasting.PasteCanRestack | src/canvas/editor.rs:268-296 | two concrete nodes come out the other way round |
| CanvasPasting.PastedEmbeds | src/canvas/editor.rs:255-328 | the embedding alone: fresh renaming, copied contents and sizes at the common offset, groups and connections carried along it |
| CanvasPasting.CopiesAreSelected | src/canvas/editor.rs:324-327 | the new selection lists the copies in the order of their originals |
| CanvasPasting.CopiedGroupsFit | src/canvas/editor.rs:297-307 | copied groups are as large as their originals and disjoint from all others |
| CanvasPasting.CopiedConnectionsFit | src/canvas/editor.rs:309-322 | copied connections join distinct new nodes, one per ordered pair |
| CanvasPasting.FragmentKeepsWellFormed | src/canvas/editor.rs:229-253 | a fragment of a well-formed canvas is well-formed |
| CanvasPasting.DuplicateKeepsWellFormed | src/canvas/editor.rs:151-227 | duplicating keeps the canvas well-formed |
| CanvasHistory.History.Record | src/canvas/editor.rs:34-37 | pushes the former canvas and clears redo |
| CanvasHistory.History.CompleteUndo | src/canvas/editor.rs:47-50 | moves the last undo entry out and the current canvas onto redo |
| CanvasHistory.History.CompleteRedo | src/canvas/editor.rs:52-55 | the mirror image |
| CanvasHistory.CanvasSession.PersistCanvas | src/app.rs:5141-5183 | replaces the canvas only when the journal accepts and the canvas is still the one edited |
| CanvasHistory.CanvasSession.ApplyAction | src/app.rs:5015-5082 | computes the edit, persists it and records it, or leaves everything |
| CanvasHistory.CanvasSession.PasteCanvasFragment | src/app.rs:4981-5013 | the same for pasting, selecting the copies |
| CanvasHistory.CanvasSession.ConnectNodes | src/app.rs:5084-5111 | the same for connecting |
| CanvasHistory.CanvasSession.Add | src/app/portals.rs:550-586 | adds a node and records the former canvas |
| CanvasHistory.CanvasSession.CommitLayout | src/app.rs:3261-3267 | drops the preview and records the commit only when it is persisted |
| CanvasHistory.CanvasSession.UndoCanvas | src/app.rs:5113-5125 | shows the undo target and moves along the history only when it is persisted |
| CanvasHistory.CanvasSession.RedoCanvas | src/app.rs:5127-5139 | the mirror image |
| CanvasHistory.TimelineDeterminesStacks | src/canvas/editor.rs:27-69 | canvas and both stacks can be read off one timeline and a position on it |
| CanvasHistory.StepAdvancesTimeline | src/app.rs:5015-5183 | each event moves the timeline as stated: recorded edits drop only what lies ahead, refused ones and browsing nothing |
| CanvasHistory.UndosThenRedosRestore | src/app.rs:5113-5139 | k undos and k redos restore canvas and both stacks exactly |
| CanvasHistory.RedosThenUndosRestore | src/app.rs:5113-5139 | and the other way round |
| CanvasHistory.BrowsingKeepsTimeline | src/app.rs:5113-5183 | any mix of undos, redos, refusals, previews and selections keeps the timeline |
| CanvasHistory.RunKeepsHistoryWellFormed | src/app.rs:5015-5183 | over any run in which the domain accepts no ill-formed edit, the canvas and everything in the history is well-formed, so undo and redo only offer the domain what it accepts |
| CanvasHistory.ActionsKeepWellFormed | src/app.rs:5015-5082 | every canvas action gives a well-formed canvas, with one exact exception: grouping when a selected node is gone |
| CanvasEdits.AcceptedActionIsPerformed | src/app.rs:5050-5081 | an accepted action performs the very edit that it names, on the fields of the canvas, and records the former canvas; an edit that changes nothing is not recorded |
| CanvasEdits.OutcomePerforms | src/app.rs:5058-5073 | each action computes the edit that it names, and leaves selected what it should |
| CanvasEdits.RefusedChangesNothing | src/app.rs:5141-5183 | a refused event ends the preview at most |
| CanvasEdits.AcceptedPasteIsPerformed | src/app.rs:4981-5013 | an accepted paste embeds the fragment, selects the copies and records the former canvas |
| CanvasEdits.AcceptedConnectionIsPerformed | src/app.rs:5084-5111 | an accepted connection is made exactly when the nodes differ and can be connected, and the result is a canvas of the domain |
| CanvasEdits.AddedNodeIsSelected | src/app/portals.rs:550-586 | an added node joins the others, is selected, and the former canvas is recorded |
| CanvasEdits.CommitReplacesCanvas | src/app.rs:3261-3267 | a drag is committed exactly when it started from the canvas that is held |
| CanvasEdits.UndoShowsLast | src/app.rs:5113-5125 | undo shows the top of the undo stack, moves the current canvas over to redo, and keeps of the selection what the canvas shown has |
| CanvasEdits.RedoShowsLast | src/app.rs:5127-5139 | the mirror image |
| CanvasEdits.FilterRetains | src/app.rs:5285-5289 | of a selection exactly the ids of existing nodes are kept, in order |
| Occlusion.Subtract | src/canvas/scene.rs:393-432 | the pushes compute the strips around the occluder |
| Occlusion.RemainderIsDifference | src/canvas/scene.rs:393-432 | the strips cover exactly the points outside the occluder, disjointly, in at most four pieces |
| Occlusion.ComputeVisibleRegions | src/canvas/scene.rs:443-464 | the loop with its early exit and truncation computes the visible regions |
| Occlusion.SplitRegions | src/canvas/scene.rs:452-455 | each region is split in order |
| Occlusion.VisibleRegionsAreUncovered | src/canvas/scene.rs:443-464 | at most four disjoint rectangles of positive area, inside card and canvas, meeting no occluder; and all uncovered points when no cut is truncated |
| Occlusion.VisibleRegionShowsPoint | src/canvas/scene.rs:443-464 | each region left shows a point that nothing covers |
| Occlusion.CoveredCardIsHidden | src/canvas/scene.rs:443-464 | a card covered by others together has no region |
| Occlusion.ShowsAllIffLosesNothing | src/canvas/scene.rs:443-464 | the visible regions show exactly the card's points on the canvas that no occluder covers, if and only if every piece dropped by the cap is hidden by the occluders that follow |
| Occlusion.ExactIffDropsOnlyHidden | src/canvas/scene.rs:448-459 | the same for the loop over the occluders, from any disjoint regions |
| Occlusion.HiddenIffCovered | src/canvas/scene.rs:393-432 | cutting a piece by all remaining occluders leaves nothing if and only if they cover it together |
| Occlusion.ExactIffNeverTruncates | src/canvas/scene.rs:448-459 | all uncovered points are shown after each prefix of the occluder list, if and only if no cut on the way has more than four pieces |
| Occlusion.TruncationHidesVisiblePoint | src/canvas/scene.rs:443-464 | two concrete occluders, neither of which covers a point of the card, take it out of the visible regions |
| Occlusion.TruncationCanBeHarmless | src/canvas/scene.rs:443-464 | with a third occluder the same piece is dropped and nothing is lost |
| Occlusion.DrawNodes | src/canvas/scene.rs:466-530 | sorting and the indexed loop compute what text is drawn |
| Occlusion.DrawSorted | src/canvas/scene.rs:487-530 | each card's text is drawn against the later cards of the list |
| Occlusion.TextBelongsToTopmostCard | src/canvas/scene.rs:466-530 | a point carries text only of the highest card in z index and id order that covers it |
| Occlusion.CardShowsWhereTopmost | src/canvas/scene.rs:466-530 | a card carries text at exactly the canvas points where it is topmost, if and only if the cap loses nothing of it |
| Occlusion.CarriesItsRegions | src/canvas/scene.rs:512-530 | each drawn card carries text on exactly its own visible regions |
| Occlusion.TextIsDisjoint | src/canvas/scene.rs:466-530 | no point carries text of two cards |
| Occlusion.ClipText | src/canvas/scene.rs:375-390 | the clip loop intersects bounds with each region |
| Occlusion.ClipsStayInRegions | src/canvas/scene.rs:375-390 | text is painted exactly where its bounds meet the regions |
| NoteBuffer.NoteBuffer.Load | src/context.rs:98-108 | loads a clean note exactly when the file is missing or reads as text of at most 1 MiB without zero bytes, and names the reason otherwise |
| NoteBuffer.NoteBuffer.Edit | src/context.rs:136-142 | a different text makes the buffer dirty |
| NoteBuffer.NoteBuffer.Refresh | src/context.rs:144-157 | takes over a changed file only without edits, notes the foreign revision otherwise |
| NoteBuffer.NoteBuffer.ReloadDiscardingEdits | src/context.rs:159-166 | takes over what the file reads as, or reports the error |
| NoteBuffer.NoteBuffer.Save | src/context.rs:168-182 | succeeds exactly when the file reads, its revision is the recorded one or overwriting is asked for, and the write succeeds; the note is clean then, and keeps its edits otherwise; the conflict names both revisions |
| NoteBuffer.SavedNoteReadsBack | src/context.rs:46-86 | a saved text loads as itself if and only if it is within the preview limit and without zero bytes |
| NoteBuffer.ZeroByteIsSavedAndLost | src/context.rs:168-182 | a note of one zero byte is saved, and its file then reads as binary |
| NoteBuffer.OperationsStayHonest | src/context.rs:98-183 | every operation keeps a clean buffer's text equal to its recorded revision, and reports only foreign revisions |
| Utf8.Utf8IffEncoded | src/context.rs:80-86 | text is accepted exactly when it is what encoding Unicode scalar values gives |
| Utf8.CharacterIsEncoded | src/context.rs:80-86 | each character accepted is the encoding of one scalar value |
| Utf8.EncodedLength | src/context.rs:80-86 | each encoded scalar value is accepted whole |
| ContextNodes.ContextUi.Tick | src/app/context_nodes.rs:168-202 | every fifth tick starts a scan of the active workspace unless one is under way |
| ContextNodes.ContextUi.EditNote | src/app/context_nodes.rs:245-261 | the edit reaches the editor, the buffer and the canvas body |
| ContextNodes.ContextUi.SaveNote | src/app/context_nodes.rs:320-341 | saves the selected note when its directory is available |
| ContextNodes.ContextUi.ReloadNote | src/app/context_nodes.rs:343-367 | reloads buffer and editor together |
| ContextNodes.ContextUi.ScanCompleted | src/app/context_nodes.rs:204-243 | takes over a scan only for the active workspace and an unchanged note, and keeps a newer note's own body |
| ContextNodes.Scan | src/app/context_nodes.rs:494-557 | bodies for exactly the nodes of the layout, the selected note's from its refreshed buffer |
| NoteRuns.RunKeepsInvariant | src/app/context_nodes.rs:168-261 | in every run the buffer is honest, the editor shows its text, and a scan is under way exactly while the busy flag is up |
| NoteRuns.UnsavedTextSurvives | src/app/context_nodes.rs:204-261 | over any run without edits and reloads, unsaved text is still there at the end unless a save of the run wrote it to the file |
| NoteRuns.UnsavedTextIsKept | src/context.rs:136-182 | the same for one step: text changes only by edit or reload, and becomes clean only by a save that writes |
| NoteRuns.SaveIsGuarded | src/context.rs:168-182 | a save writes without overwriting only at the recorded revision; it replaces anything else only when somebody wrote between its check and its write |
| NoteRuns.UnreadableStaysUnreadable | src/app/context_nodes.rs:320-367 | a file that does not read as a note stays as it is through every run in which nobody else writes it, and every save, overwriting or not, and every reload leaves note and editor alone |
| NoteRuns.SavedNoteIsStuckIffUnreadable | src/context.rs:159-182 | after a save of too long a text or one with a zero byte, that holds in every run that follows; after any other save it does not |
| NoteRuns.RecordedWasOnDisk | src/context.rs:98-182 | in every run the recorded revision, which guards saves, is one that really stood at the note's path since it was opened |
| NoteRuns.RunKeepsTraced | src/app/context_nodes.rs:168-261 | the same for the notes and files of scans under way |
| NoteRuns.DeliveryIsGuarded | src/app/context_nodes.rs:204-243 | a late scan leaves a changed note and the editor alone; one that changes the text found a clean note and a changed file |
| NoteRuns.DeliveryShowsTheNote | src/app/context_nodes.rs:204-243 | after a scan of its workspace the canvas shows the text that the buffer holds then |
| NoteRuns.DeliveryBringsUpToDate | src/app/context_nodes.rs:494-531 | a clean, unchanged note takes over what the scan read |
| NoteRuns.ScanBringsUpToDate | src/app/context_nodes.rs:168-243 | a due tick, its scan and its delivery leave note, editor and canvas with what the file in the scanned directory held |
| NoteRuns.BodiesChangeIsCounted | src/app/context_nodes.rs:239-261 | every change of the bodies changes the canvas revision |
| NoteEffects.SaveWritesExactly | src/context.rs:168-182 | a save writes exactly when the write succeeds, the file reads as a note, and overwriting is asked for or the file is at the recorded revision: the file then holds the text and the note is clean at it; any other save keeps text, edits, recorded revision and disk |
| NoteEffects.OverwritingResolvesConflict | src/context.rs:168-182 | after a conflict, saving with overwriting writes the text |
| NoteEffects.SaveNeedsNote | src/app/context_nodes.rs:320-337 | without a selected note or its directory a save does nothing |
| NoteEffects.EditIsShown | src/app/context_nodes.rs:245-261 | an edit shows in editor, note and canvas, and makes the note dirty from the first difference on |
| NoteEffects.ReloadTakesOver | src/app/context_nodes.rs:343-367 | a reload takes over what the file reads as, or does nothing |
| NoteEffects.TickAsksForScan | src/app/context_nodes.rs:168-202 | every fifth tick asks for a scan of the active workspace with the note as it is, unless one is under way or there is no directory |
| NoteEffects.ForeignDeliveryChangesNothing | src/app/context_nodes.rs:204-220 | a failed scan, or one that comes back to another workspace, changes nothing on the screen |
| NoteEffects.DeliveryShowsOthers | src/app/context_nodes.rs:204-243 | a delivered scan shows what it read of every other node, and only nodes that it scanned besides the selected one |
| NoteEffects.DeliveryReportsChange | src/context.rs:144-157 | a dirty note keeps its text and its edits through a scan, and reports a file that moved on |
| NoteEffects.DeliveryElsewhereKeepsNote | src/app/context_nodes.rs:494-507 | a scan of another workspace leaves note and editor alone |
| NoteEffects.ScanReadsDisk | src/app/context_nodes.rs:494-557 | a scan reads the disk as it is then, and changes nothing until it is delivered |
| SearchIndex.NavigationUi.Tick | src/app/navigation.rs:65-108 | marks what is outdated and the active workspace when due, then starts building the smallest stale workspace or drops an unloaded one |
| SearchIndex.NavigationUi.MarkOutdated | src/app/navigation.rs:67-71 | marks exactly the workspaces not recorded at their watermark |
| SearchIndex.NavigationUi.IndexBuilt | src/app/navigation.rs:155-191 | installs a build only for a loaded workspace, records its revision, and marks it again when the timeline moved on |
| SearchIndex.NavigationUi.RemoveWorkspace | src/app/workspace_actions.rs:57-71 | drops the index, the record and the mark |
| SearchIndex.RunKeepsInvariant | src/app/navigation.rs:65-191 | in every run a build is under way exactly while busy, an installed index reflects at least what it is recorded at, and only loaded workspaces are indexed, recorded or stale |
| SearchIndex.EveryRunIsSound | src/app/navigation.rs:65-191 | the same from the empty index at the start |
| SearchIndex.TickCovers | src/app/navigation.rs:65-108 | after a tick each workspace with a watermark is indexed at it, stale or being built |
| SearchIndex.RunKeepsCovered | src/app/navigation.rs:65-191 | that stays so until its timeline is read again or its build fails, and once neither stale nor building its documents reflect the watermark |
| SearchIndex.TickThenRunKeepsCovered | src/app/navigation.rs:65-191 | the two together, from any reachable state |
| SearchIndex.RemovedStaysRemoved | src/app/workspace_actions.rs:57-71 | nothing of a removed workspace comes back until it is loaded again, whatever builds arrive late |
| SearchIndex.DocumentsNeverGoBack | src/app/navigation.rs:155-191 | documents of a workspace never go back to an older version, even across removal and reloading |
| SearchIndex.RunKeepsNoOlder | src/app/navigation.rs:65-191 | the invariant behind it, builds under way included |
| SearchProgress.BuildIsInstalled | src/app/navigation.rs:155-191 | a successful build of a loaded workspace is installed and recorded at its revision, and the workspace is marked again exactly when its watermark differs from it |
| SearchProgress.OtherBuildsAreDropped | src/app/navigation.rs:160-176 | a failed build leaves index, record and marks; one of an unloaded workspace takes its documents away |
| SearchProgress.TickStartsSmallest | src/app/navigation.rs:65-108 | while nothing is being built, a tick takes the smallest pending workspace: it builds the loaded version to be recorded at the watermark, or drops an unloaded one |
| SearchProgress.TickOnlyMarks | src/app/navigation.rs:65-84 | while a build is under way, or nothing is pending, a tick only marks |
| SearchProgress.RoundIndexesOne | src/app/navigation.rs:65-191 | a tick and its successful delivery take one workspace from what is pending and add none, unless the periodic mark comes between |
| SearchProgress.OnePendingIsIndexed | src/app/navigation.rs:65-191 | when one workspace alone is pending, they leave it indexed at its watermark, nothing marked and nothing being built |
| SearchProgress.RoundsIndexAll | src/app/navigation.rs:65-191 | as many such rounds as there are pending workspaces bring all of them up to date |
| SearchProgress.RemovalIsExact | src/app/workspace_actions.rs:57-71 | removal takes the documents, the record, the mark and the timeline of one workspace and touches no other |
| Credentials.RedactPrefixedCredentials | src/security.rs:66-68 | terminates with no credential of any listed rule left, changes the text only when there was one, and only cuts credentials out of it |
| Credentials.RedactListed | src/security.rs:66-68 | the same for any sound list of rules |
| Credentials.RedactPrefixedCredential | src/security.rs:159-185 | one pass leaves no credential of its rule, makes none of another, and keeps all other text in order |
| Credentials.RedactOccurrence | src/security.rs:166-184 | one occurrence is passed over or replaced, and the rest of the text gets shorter |
| Credentials.CutOutReplaces | src/security.rs:178-180 | cutting one more span out of a scrubbed text is replacing it in the output |
| Credentials.CutOutIsSpaced | src/security.rs:178-180 | each piece cut out is a credential, never part of an earlier replacement, and nothing runs into a replacement from behind |
| Credentials.CutOutAtBoundaries | src/security.rs:167-173 | each piece cut out starts at a token boundary of the original text, even when several passes cut it |
| Credentials.SpacedAtBoundariesIsShaped | src/security.rs:66-68 | the two together are what the result of all passes promises |
| Credentials.CutOutKeepsOriginal | src/security.rs:178-180 | cutting loses nothing of the original text |
| Credentials.SkipIsClean | src/security.rs:166-184 | passing over a whole prefix misses no credential that starts inside it |
| Credentials.ReplaceKeepsClean | src/security.rs:178-180 | a replacement makes no credential of any other rule behind it |
| Credentials.ReplaceIsCleanBefore | src/security.rs:178-180 | nor any before or inside it |
| Credentials.TableIsSound | src/security.rs:21-27 | the five listed prefixes and the replacement text satisfy what the passes rely on |
| CredentialRules.TableSpellsPrefixes | src/security.rs:21-27 | the five prefixes, the shortest lengths and the replacement text, spelled out |
| CredentialRules.CleanHasNoToken | src/security.rs:159-185 | a text is clean of a rule exactly when it nowhere has, in either case, the prefix and a run of token bytes behind it that is long enough, with no letter, digit or underscore before it |

## Left out

- Calendar.CivilFromDaysCountsDays: integers are unbounded, so the overflow of day counts near the ends of the 64-bit range is not modelled; `FormatInstantNamesTheMinute` shows that rendered instants stay away from it.
- Floating point in canvas and occlusion geometry: coordinates are reals, so rounding, NaN and infinities are not modelled.
- CanvasPasting.PasteEmbeds: assumes that the id and z counters do not reach the end of their ranges; at the end they saturate and ids repeat.
- Camera transforms, styling and drawing calls: the camera enters occlusion as an arbitrary placement of cards on the screen.
- `selection_for_click` of the canvas editor: one branch over the selection, with nothing that spans operations.
- The journal: whether it accepts a canvas is a parameter of each event; the conflict check against the canvas edited is modelled.
- Cards moved between floors: a layout is the part of a larger canvas that is visible, and the larger canvas enters only through the ids in use.
- Portal approvals, device discovery, agent lists and `shutdown`: separate handlers that do not touch the session protocol.
- A missing IPC service and a background task that panics inside connecting: the portal runs assume that the service stays and that a started connection reports back.
- The path of a note: the buffer belongs to one path, and the disk gives what stands there in each directory.
- The text editor widget: it is taken to return the text it was given; cursor movement and search are not modelled.
- `selection_changed` of the note editor: it discards an unsaved buffer when another node is selected, so the runs keep one note selected.
- Rendering of file trees, diffs and previews: their texts are parameters of the scan.
- SearchProgress.RoundsIndexAll: counts the rounds until all workspaces are up to date while every build succeeds and nothing else marks a workspace; how soon that is depends on how long builds take and how often they fail.
- The content of search documents and ranking: documents are identified with the workspace version they were built from.
- URL passwords, authorization headers, assignments and private keys in `redact_secrets`: passes of the same shape as the prefix loop, with other delimiters.
- The check that replacements fall on character boundaries: credentials consist of ASCII bytes, and text is modelled as bytes.
- The orchestrator, the routine engine, the domain's own commands, Git, terminals and import and export: not part of this model.
