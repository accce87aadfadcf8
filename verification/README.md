# tmux: command queue, recovery, codec, targets and panes

This project models the parts of tmux (with the newmux additions) whose behaviour spans several
functions or whole runs, and proves what they promise. The objects that the C code updates in place are
classes whose methods have the source's control flow; each method is proved against a value-level
function or step, and the results about runs are lemmas about those.

| files | what they model |
|---|---|
| `WaitChannelSpec`, `WaitFor` | the wait channels of `wait-for`: the operations on the tree of channels, an independent automaton of one channel, and the channels as objects |
| `CmdLists`, `CmdListRuns`, `CmdParse` | command lists and their group numbers, the lists that can be built, and how parsed commands are turned into lists |
| `CmdqItems`, `CmdQueue` | queue items and lists with their reference counts, hooks, and the loop that runs a queue |
| `QueueProtocol`, `QueueRefs` | queues, channels, clients and reference counts together as one state machine, and what the counts are in its runs |
| `Winlinks`, `RecoveryState`, `RecoveryCommands`, `RecoveryOrder`, `RecoveryRuns`, `Recovery` | the window links of sessions, the recovery commands as a state machine and what each of them does, the order in which windows come back, runs that show what is not promised, and the commands as methods |
| `GridHistory` | the copying of visible and saved lines into a pane's history |
| `Base64` | the base64 codec of RFC 1521, section 5.2 |
| `Argv` | packing argument vectors into a message |
| `CmdFind`, `CmdFindNames` | the resolution of target strings, and what the strings stand for literally |
| `Panes` | `swap-pane` and `rotate-window` |
| `Common` | stock definitions |

Things that other code decides are parameters: whether a firing finds a client and resolves its targets,
hook options, whether a window looks untouched, pattern matching and numbers in target strings, which
pane lies beside another, and a client's active pane.

Where the code differs from what its comments or its callers suggest, the model follows the code and a
lemma says exactly how:

- Deleted windows do not always come back in order: a window whose place has no free index behind it
  below the largest index is refused. `LastClosedFirstReopened` gives the exact condition for any number
  of windows, `DeletePutBack` the one for a single window, and `LargestIndexIsLost` an example.
- A window that is put back without its neighbours and behind the last position takes the first free index.
  It comes last if and only if the session uses its indices from 0 on without a gap (`LastIfNoGap`); in a
  reachable state it can come first (`MayComeBackFirst`).
- The window of a closed item is not always kept: a delete that targets the recovery session itself makes a
  second item for the same window, or kills it. All items are kept in every state of a run if and only if no
  delete does that (`ClosedWindowsAreKept`); `DeletedTwiceIsLost` is a run after which the recovery session
  of a reserved item is gone.
- Collecting a history that is exactly at its limit drops one line, so preserving the visible lines twice
  is not preserving them once in exactly one case (`PreservedTwice`).
- With a saved grid, preserving a pane's lines twice is not preserving them once. Whatever the history and its
  limit are, `AllPreservedAgain` says exactly when the second time adds no line; with room for all lines that is
  when it changes nothing (`AllPreservedTwice`). At the limit lines can be added and the result be the same by
  coincidence (`AddedUnnoticed`).
- A copied command list cancels what its original cancels on an error if and only if equal groups are
  next to each other in the original (`CopyCancelsAlike`). That holds of every list that is built from new
  ones as long as a list that was moved is dropped (`BuiltListsCopyAlike`), which every caller does; filling
  and moving a list again would break it (`ReusedListBreaksCopy`).
- Signals that nobody waits for cancel each other on an unlocked channel (`UnheardSignals`).
- The targets `@`, `{active}` and `{current}` leave the session unset, so exactly these never give a valid
  state (`FindTarget`).
- `swap-pane -d` within one window makes the source pane active if either pane was (`SwapPane`).

## Model

| member | source | states |
|---|---|---|
| WaitChannelSpec.StepRefinesReference | tmux/commands/cmd-wait-for.c:83-241 | one operation on the table of channels, which allocates and frees, is one step of an automaton of a channel that always exists, and leaves all other channels alone |
| WaitChannelSpec.KeptOrFreedIsUnobservable | tmux/commands/cmd-wait-for.c:104-118 | whether idle channels are kept or freed cannot be told: every run of operations answers alike, continues the same items and leaves the same views |
| WaitChannelSpec.StepConservesSuspended | tmux/commands/cmd-wait-for.c:139-264 | an operation suspends at most its own item, continues only suspended ones, and loses none; no item is ever in two places |
| WaitChannelSpec.FreeingDiscardsNobody | tmux/commands/cmd-wait-for.c:104-118 | freeing a channel never discards a suspended item |
| WaitChannelSpec.LocksAreFair | tmux/commands/cmd-wait-for.c:195-241 | in every flush-free run locks are granted in the order of their requests, those still queued are the rest, and grants exceed unlocks by one exactly while the channel is locked |
| WaitChannelSpec.WaitsAreServedInOrder | tmux/commands/cmd-wait-for.c:139-192 | in every flush-free run waits are served in the order of their requests, and those still waiting are the rest |
| WaitChannelSpec.UnheardSignals | tmux/commands/cmd-wait-for.c:139-163 | any number of signals that nobody waits for: on an unlocked channel they toggle the latch, on a locked one they set it |
| WaitFor.WaitChannels.Signal | tmux/commands/cmd-wait-for.c:139-163 | the drain loop in the heap of channels does the signal operation: the same table, the same answer, and exactly the waiters continued |
| WaitFor.WaitChannels.Await | tmux/commands/cmd-wait-for.c:166-192 | the wait operation on the heap of channels |
| WaitFor.WaitChannels.Lock | tmux/commands/cmd-wait-for.c:195-217 | the lock operation on the heap of channels |
| WaitFor.WaitChannels.Unlock | tmux/commands/cmd-wait-for.c:220-241 | the unlock operation on the heap of channels: the first locker gets the lock, or the channel is unlocked and perhaps freed |
| WaitFor.WaitChannels.Flush | tmux/commands/cmd-wait-for.c:243-264 | flushing continues every suspended item and frees every channel, in whatever order the tree is walked |
| QueueProtocol.WaitingIsSuspendedOnce | tmux/commands/cmd-queue.c:729-808 | in every state of every run of queues and channels, an item waits exactly if it is suspended in one place of one channel, and then it is the fired head of its queue; nobody waits on a woken channel or queues for an unlocked one |
| QueueProtocol.AnswersMean | tmux/commands/cmd-queue.c:595-681 | a callback answers its value, a command whose targets are not resolved an error, and any other what it does; the four uses of wait-for are the four operations on the channel of that name |
| QueueProtocol.HooksRunFor | tmux/commands/cmd-queue.c:621-676 | a hook's items are queued for the head's own client, or if it has none for the one found for it, but after an error not for that |
| QueueProtocol.FiredOnceInOrder | tmux/commands/cmd-queue.c:300-349 | an item is fired at most once, and of two items ever in one queue the later only after the earlier has left |
| QueueProtocol.ErrorCancelsExactlyTheGroup | tmux/commands/cmd-queue.c:469-483 | a failing command takes away exactly the later items of its own non-zero group, and touches no other queue |
| QueueProtocol.FollowingKeepsOrder | tmux/commands/cmd-queue.c:469-483 | what an error leaves keeps its order |
| QueueProtocol.FiringsAreBounded | tmux/commands/cmd-queue.c:352-443 | a queue of n items fires at most n * (1 + h) items, hooks included, when no hook list is longer than h |
| QueueProtocol.TurnsProgress | tmux/commands/cmd-queue.c:740-799 | every turn of the loop makes progress, so running a queue ends |
| QueueRefs.CountsAreHolders | tmux/commands/cmd-queue.c:230-256 | in every state of every run the references to a client, a state or a command list are the queued items that hold it plus its outside holders; an item holds the client it was queued for, which for a hook's items, and for items that a command inserts behind itself, is the one the command ran for, in whatever queue they are |
| CmdQueue.Server.ReferencesAreHolders | tmux/commands/cmd-queue.c:300-349 | the same of the objects: at the end of every method of a server, the `references` field of every client, state and command list is the number of queued items that hold it plus the outside holders |
| CmdQueue.CommandQueues.RemoveGroup | tmux/commands/cmd-queue.c:453-483 | removing a group takes away exactly the later items of the head's group, and drops exactly the references that these items hold |
| CmdqItems.CmdqList.Append | tmux/commands/cmd-queue.c:300-321 | appending a linked chain of items puts them at the end in their order, for a client that gets a reference for each |
| CmdqItems.CmdqList.InsertAfter | tmux/commands/cmd-queue.c:324-349 | inserting a linked chain behind an item splices it in, in its order, for that item's client, which gets a reference for each, and moves nothing else |
| CmdqItems.CmdqList.RemoveGroup | tmux/commands/cmd-queue.c:469-483 | the loop over the items behind one removes exactly those of its group and drops what they hold |
| CmdQueue.GetCommand | tmux/commands/cmd-queue.c:493-537 | a command list becomes a linked chain, one item a command with its group, each with a reference to the list and to a shared state; an empty list becomes one callback |
| CmdQueue.ListMeans | tmux/commands/cmd-queue.c:493-537 | a list turns into an item for each of its commands, in their order and with their groups, or into one callback |
| CmdQueue.CommandQueues.InsertHook | tmux/commands/cmd-queue.c:352-443 | right behind the item is inserted the concatenation, in order, of the items of the hook's lists, for the client that the item has then, as items that run no hooks themselves; nothing is queued for an item without hooks |
| CmdQueue.Server.FireHead | tmux/commands/cmd-queue.c:595-681 | firing the head of a queue in the heap is the protocol's firing step: the client it runs for, execution, cancellation and references together; and the items inserted behind it are those of its hooks |
| CmdQueue.HooksMean | tmux/commands/cmd-queue.c:652-676 | those are the items of `command-error` after an error, of `after-` and the command's name after a success if the command has such a hook and there is a target for it, and none if the item runs without hooks, there is no such option, or it is a callback |
| CmdQueue.HookMeans | tmux/commands/cmd-queue.c:425-439 | the items of a hook are those of its lists, one list after the other |
| CmdQueue.Server.PopHead | tmux/commands/cmd-queue.c:453-466 | removing a finished head is the protocol's step |
| CmdQueue.Server.AppendCommand | tmux/commands/cmd-queue.c:300-321 | appending a command list to a client's queue is the protocol's step, with the items that the list stands for |
| CmdQueue.Server.InsertAfter | tmux/commands/cmd-queue.c:324-349 | inserting a command list behind an item, for the item's own client or for the one found for it while it is executed, is the protocol's step, with the items that the list stands for |
| CmdQueue.Server.Flush | tmux/commands/cmd-wait-for.c:243-264 | flushing is the protocol's step |
| CmdQueue.Server.Next | tmux/commands/cmd-queue.c:729-808 | the loop that runs a client's queue terminates, is a run of the protocol on that queue alone, and ends with an empty queue or a waiting head; it returns the number of items it fired, less one if the last one waits |
| CmdLists.CopyCancelsAlike | tmux/commands/cmd.c:673-701 | an error at any position of a copied list cancels the same positions as in the original if and only if the original's groups are contiguous |
| CmdLists.CopyNumbersBlocks | tmux/commands/cmd.c:673-701 | a copy's groups are new, and two positions share one exactly if the original does not change group between them |
| CmdLists.GroupCounter.Copy | tmux/commands/cmd.c:673-701 | the copying loop keeps the commands, numbers the groups as specified, and gives a list with one reference |
| CmdLists.CmdList.AppendAll | tmux/commands/cmd.c:637-645 | appending another list gives all its commands the list's group and empties it |
| CmdLists.GroupCounter.Move | tmux/commands/cmd.c:648-653 | moving keeps the groups of the moved commands and takes a new group for what follows |
| CmdListRuns.BuiltListsCopyAlike | tmux/commands/cmd.c:614-701 | every list that any run of new, append, append-all, move and copy builds, while moved lists are dropped and the counter has not wrapped, has contiguous groups, and its copy cancels what it cancels |
| CmdListRuns.RunKeepsGroups | tmux/commands/cmd.c:614-658 | in every such run all lists have contiguous groups and no two share one |
| CmdListRuns.ReuseList | tmux/commands/cmd.c:648-653 | a list that is filled and moved again, which no caller does, gives a result with the same group in two places |
| CmdListRuns.ReusedListBreaksCopy | tmux/commands/cmd.c:648-701 | a copy of such a result cancels less than the result |
| CmdParse.BuildCommands | tmux/commands/cmd-parse.y:880-935 | two commands of a built list have the same group exactly if they come from the same line, through aliases and whatever is in braces, or all do with one group wanted; the list has one reference |
| CmdParse.LineMeans | tmux/commands/cmd-parse.y:896-907 | two commands are on one line exactly if the line does not change from one to the other, or if one group is wanted for all |
| CmdParse.LinesFailTogether | tmux/commands/cmd-parse.y:896-901 | an error cancels the later commands of its own line and no others, in a built list and in every copy of it |
| Winlinks.Session.ShuffleUp | tmux/windows/window.c:1731-1761 | an index before or after a link is made free by moving the run of links up to the next gap, or refused if there is no gap below the largest index |
| Winlinks.Session.NextIndex | tmux/windows/window.c:135-150 | the first free index, or none |
| Winlinks.AddedInOrder | tmux/windows/window.c:1731-1761 | a link added at an index that was made free stands exactly there in the order, and all others keep theirs |
| RecoveryState.AttachedInPlace | tmux/commands/cmd-newmux-recovery.c:711-765 | a window put back stands right behind its old left neighbour; if that is not there, right before its old right one; if neither is, at its old position, whatever windows stand there; behind the last position, at the first gap of the indices; and all others stand as before |
| RecoveryState.AttachedIfFree | tmux/commands/cmd-newmux-recovery.c:711-765 | it is refused if and only if no index is free below the largest from the one behind the left neighbour on, or from that of the right one or of the link at the old position |
| RecoveryState.PutBackInOrder | tmux/commands/cmd-newmux-recovery.c:711-765 | if the other windows stand in the same order, whatever their indices, a window that is put back restores the old order |
| RecoveryState.DeletePutBack | tmux/commands/cmd-newmux-recovery.c:711-765 | deleting and putting back one window succeeds if and only if there is a gap for it, and then restores the order |
| RecoveryState.LargestIndexIsLost | tmux/windows/window.c:1744-1752 | with the two largest indices in use, the last window does not come back |
| RecoveryState.LastIfNoGap | tmux/commands/cmd-newmux-recovery.c:749-765 | a window without neighbours whose old position is behind the end comes last if and only if the session's indices are 0, 1, 2 and so on without a gap |
| RecoveryRuns.MayComeBackFirst | tmux/commands/cmd-newmux-recovery.c:749-765 | a run from an idle state, of two deletes and a reopen, after which the last window is the first |
| RecoveryRuns.ClaimedFirstComesFirst | tmux/commands/cmd-newmux-recovery.c:749-761 | a run of two deletes, two reservations and a claim out of order: the window comes back without its neighbours, in front |
| RecoveryOrder.LastClosedFirstReopened | tmux/commands/cmd-newmux-recovery.c:1496-1521 | up to 32 deletes and as many reopens restore the order of a session if and only if the remaining links leave room for all windows |
| RecoveryOrder.AllReopenIfFits | tmux/commands/cmd-newmux-recovery.c:1496-1521 | all reopens succeed if and only if there is room, whatever the indices have become meanwhile |
| RecoveryOrder.FitsStep | tmux/windows/window.c:1731-1761 | putting one window back leaves room for the others exactly if there was room for all |
| RecoveryOrder.ReserveThenRelease | tmux/commands/cmd-newmux-recovery.c:1523-1616 | in every state of every run, until the counter wraps, reserving the latest items and releasing them in the opposite order changes nothing; in the same order it reverses them on the stack |
| RecoveryState.FailedReopenChangesNothing | tmux/commands/cmd-newmux-recovery.c:1504-1515 | a reopen that fails changes nothing and evicts nothing |
| RecoveryState.ClosedWindowsAreKept | tmux/commands/cmd-newmux-recovery.c:605-692 | all closed and reserved items are kept in every state of a run if and only if no delete in it targets the recovery session, other than one that is refused or that kills a window of no item; kept means that the window is linked in the one recovery session, whose id the item recorded, and in no other, and that its home is another session that is there |
| RecoveryRuns.DeletedTwiceIsLost | tmux/commands/cmd-newmux-recovery.c:1259-1290 | a run that deletes a window again in the recovery session, after which the recovery session is destroyed while an item for it is still reserved |
| RecoveryState.ItemsAreConserved | tmux/commands/cmd-newmux-recovery.c:574-651 | in every state of every run, deletes in the recovery session included, every window is linked once, in one session; the count is the stack's length and at most 32; everything pushed since the last clear is closed, reserved, restored or evicted, exactly once each until the counter wraps; sequence numbers are then distinct and at most the counter |
| RecoveryState.WrappedSequenceIsReused | tmux/commands/cmd-newmux-recovery.c:940 | once the counter has wrapped to a number in use, the next item gets the same one |
| RecoveryCommands.DeleteOfOneOrUntouched | tmux/commands/cmd-newmux-recovery.c:1259-1278 | the last window of a session is not deleted, and an untouched one only leaves its session |
| RecoveryCommands.DeleteMeans | tmux/commands/cmd-newmux-recovery.c:1280-1290 | any other window leaves its session for the recovery session, and its item, with its place, its neighbours and the next number, is the latest of at most 32 closed ones; it fails only if the recovery session has no free index |
| RecoveryCommands.RestoreMeans | tmux/commands/cmd-newmux-recovery.c:1179-1229 | restoring puts the window into its session and takes it out of the recovery session, which is destroyed with its last window, and nothing else changes |
| RecoveryCommands.ReopenMeans | tmux/commands/cmd-newmux-recovery.c:1496-1521 | reopening restores the latest closed item, or changes nothing |
| RecoveryCommands.ReservedMeans | tmux/commands/cmd-newmux-recovery.c:1541-1616 | claiming or releasing takes the first reserved item with the number: claimed it is restored, and released, or if that fails, it is the latest closed one |
| RecoveryCommands.NotReserved | tmux/commands/cmd-newmux-recovery.c:1541-1616 | a number outside 1 to 4294967295 is an error, and one that is not in use changes nothing |
| Recovery.NewmuxRecovery.SoftDeleteWindow | tmux/commands/cmd-newmux-recovery.c:1259-1290 | the command is the delete step, whatever session the target is in: not the last window, not an untouched one, else moved to the recovery session and pushed |
| Recovery.NewmuxRecovery.StackPush | tmux/commands/cmd-newmux-recovery.c:605-618 | the loop drops the oldest item when there are more than 32 |
| Recovery.NewmuxRecovery.RestoreLiveWindow | tmux/commands/cmd-newmux-recovery.c:1179-1229 | restoring attaches the window and unlinks it from the recovery session, which is destroyed when empty; a failure changes nothing |
| Recovery.NewmuxRecovery.ReopenLatest | tmux/commands/cmd-newmux-recovery.c:1496-1521 | the command is the reopen step |
| Recovery.NewmuxRecovery.ReserveLatest | tmux/commands/cmd-newmux-recovery.c:1523-1539 | the command is the reserve step |
| Recovery.NewmuxRecovery.ClaimReserved | tmux/commands/cmd-newmux-recovery.c:1541-1577 | the command is the claim step |
| Recovery.NewmuxRecovery.ReleaseReserved | tmux/commands/cmd-newmux-recovery.c:1579-1616 | the command is the release step |
| Recovery.NewmuxRecovery.RecoveryClear | tmux/commands/cmd-newmux-recovery.c:591-603 | the command destroys the recovery session and forgets all items |
| Recovery.AttachAtSavedPosition | tmux/commands/cmd-newmux-recovery.c:711-765 | the search for a neighbour and the insertion give the links specified, or change nothing |
| GridHistory.Grid.InsertHistoryLine | tmux/commands/cmd-newmux-recovery.c:410-430 | rebuilding the lines adds one to the history and leaves the visible ones alone |
| GridHistory.Grid.CollectHistory | tmux/screen/grid.c:385-411 | the oldest lines over the limit go, or one if it is reached exactly |
| GridHistory.Screen.PreserveVisibleGrid | tmux/commands/cmd-newmux-recovery.c:432-448 | the visible lines are added to the history unless it ends with them, and stay visible |
| GridHistory.Screen.PreserveAlternateSavedGrid | tmux/commands/cmd-newmux-recovery.c:450-463 | the same for the lines of a saved grid |
| GridHistory.Screen.PreservePaneHistory | tmux/commands/cmd-newmux-recovery.c:465-470 | preserving the lines of a pane adds the visible ones and then the saved ones, with the width of each comparison |
| GridHistory.PreservedIsLast | tmux/commands/cmd-newmux-recovery.c:432-448 | the new history is the end of the old one and the visible lines |
| GridHistory.EqualLines | tmux/commands/cmd-newmux-recovery.c:350-374 | lines are equal exactly if they have the same flags, the same number of used cells and the same cells up to the width, where missing cells are default ones |
| GridHistory.PreservedTwice | tmux/commands/cmd-newmux-recovery.c:432-448 | preserving twice is preserving once, except if and only if the history was empty and its limit is the number of visible lines, at least two |
| GridHistory.PreservedThrice | tmux/commands/cmd-newmux-recovery.c:432-448 | in the exceptional case the second time brings back the dropped line, and the third changes nothing |
| GridHistory.AllPreservedAgain | tmux/commands/cmd-newmux-recovery.c:465-470 | with a saved grid, for every history and every limit, preserving all a second time adds no line if and only if the history then has as many lines as either grid, as it has if both are lower than the limit, and nothing is visible or saved, or the history ended with the saved lines, or it still ends with the visible lines behind the saved ones |
| GridHistory.AllPreservedTwice | tmux/commands/cmd-newmux-recovery.c:465-470 | with room for all lines, that is also exactly when preserving all twice is preserving once; otherwise the visible lines are added again |
| GridHistory.AddedUnnoticed | tmux/commands/cmd-newmux-recovery.c:465-470 | a full history to which lines are added again and which is the same afterwards |
| GridHistory.SavedGridIsAddedAgain | tmux/commands/cmd-newmux-recovery.c:465-470 | for instance, with a saved grid whose last line differs, every time adds all lines again while there is room |
| Base64.B64Ntop | tmux/compat/base64.c:125-178 | the encoder succeeds if and only if the encoding and its terminator fit, and then writes exactly them |
| Base64.B64Pton | tmux/compat/base64.c:186-309 | the decoder accepts exactly the encodings, white space aside, of bytes that fit, however tight the buffer, and stores those bytes; without a buffer, exactly their shape |
| Base64.DigitsAreTheAlphabet | tmux/compat/base64.c:58-59 | the character of a digit is the one at its place in the 64 characters of the alphabet |
| Base64.ValuesArePlaces | tmux/compat/base64.c:203-205 | a character is accepted as a digit exactly if it is in the alphabet, and stands for its place |
| Base64.Examples | tmux/compat/base64.c:59-123 | the encodings of the first one, two and three bytes of `foo` |
| Base64.EncodeIsInjective | tmux/compat/base64.c:59-123 | different bytes have different encodings |
| Base64.EncodeAppend | tmux/compat/base64.c:59-123 | whole groups are encoded on their own |
| Base64.EndDecidesShape | tmux/compat/base64.c:256-306 | behind the digits, exactly the padding that completes the group is accepted |
| Base64.LeftOver | tmux/compat/base64.c:289-297 | bits left over from the last digit are in no encoding |
| Argv.Pack | tmux/commands/cmd.c:299-320 | packing succeeds if and only if the strings and their terminators fit, and writes exactly them |
| Argv.Unpack | tmux/commands/cmd.c:322-350 | unpacking succeeds if and only if there are enough terminators, never reads past the end, and its strings start the terminated buffer |
| Argv.RoundTrip | tmux/commands/cmd.c:299-350 | what unpacking can find in a message that starts with packed strings is those strings |
| CmdFind.FindState.FindTarget | tmux/commands/cmd-find.c:922-1254 | a target is found if and only if there is a session and every part that is named stands for something, no pane being named when an index is wanted; the search starts from the marked pane, the queued state or the client's; every part is what its name stands for, and every missing part is what is current or active; without an index wanted the state is valid if and only if the target is not one of the three for the client's current window |
| CmdFind.FindState.Resolve | tmux/commands/cmd-find.c:1143-1219 | the parts are found if and only if each stands for something in what the others name, and then the state is what they stand for |
| CmdFind.FindState.FindMouse | tmux/commands/cmd-find.c:1008-1036 | the state of a mouse event is its pane if a pane is wanted and it is in the event's window, else that window's active one, or that of the session's current window if the session does not have it |
| CmdFind.FindState.GetSession | tmux/commands/cmd-find.c:247-308 | the session found is the one the string names, and none if the name is ambiguous |
| CmdFind.FindState.GetWindow | tmux/commands/cmd-find.c:310-341 | a window without a session is the id's in the best session that has it, else the link named in the current session, else the current window of the session named, and it fails exactly if there is none of these |
| CmdFind.FindState.GetPane | tmux/commands/cmd-find.c:498-530 | a pane without a window is the id's in the best session that has its window, else the pane named in the current window, else the active pane of the window named |
| CmdFind.FindState.GetWindowWithSession | tmux/commands/cmd-find.c:347-496 | the link found is the one the string names in the session: an id, an offset around the list, a special character, an index or a unique name; with an index wanted it is exactly the index named, which need not have a link |
| CmdFind.FindState.GetPaneWithWindow | tmux/commands/cmd-find.c:563-640 | the pane found is the one the string names in the window, and is in it |
| CmdFind.FindState.BestSessionWithWindow | tmux/commands/cmd-find.c:175-202 | the session is the first of the best among those that have the window, and the link is its current one or its first |
| CmdFind.BestSession | tmux/commands/cmd-find.c:151-172 | no session is better than the one found, and all before it are worse |
| CmdFindNames.BestMeans | tmux/commands/cmd-find.c:133-148 | if unattached sessions are preferred an attached one is best only if all are; among those alike the latest activity wins, and the first of equals |
| CmdFindNames.NameMeans | tmux/commands/cmd-find.c:446-494 | a name stands for the only window with exactly that name, else for the only one that begins with it, else for the only one it matches, the last two only if the match need not be exact |
| CmdFindNames.OtherSession | tmux/commands/cmd-find.c:265-305 | a name that is no session's stands for the session of a client of that name, else for the only session whose name begins with it |
| CmdFindNames.SessionParts | tmux/commands/cmd-find.c:1049-1071 | in `s:w.p` the session, the window and the pane are s, w and p |
| CmdFindNames.BareParts | tmux/commands/cmd-find.c:1079-1099 | a target without colon and period is a session, a window or a pane by its first character, and else by what is looked for |
| CmdFindNames.NamedWindows | tmux/commands/cmd-find.c:51-58 | `{start}` and `{end}` are the first and the last window, `{last}` is the one that was current before, `{next}` and `{previous}` are beside the current one around the ends |
| CmdFindNames.NamedPanes | tmux/commands/cmd-find.c:59-76 | the same of panes, and the sides of the active pane |
| CmdFindNames.WantedIndices | tmux/commands/cmd-find.c:373-444 | with an index wanted an offset counts from the current index within the range, and a number is itself, with its link if it has one |
| CmdFind.FindState.FromClient | tmux/commands/cmd-find.c:858-916 | a client stands for its session and its own pane; an unattached one for the best session with the window it runs in, or else for the best of all, in the current window and its active pane; it fails only if there is no session |
| CmdFind.StepsCount | tmux/windows/window.c:221-241 | offsets count around the list in both directions |
| Panes.ExchangeInOne | tmux/commands/cmd-swap-pane.c:91-99 | the list operations exchange two panes of one list, also when they are neighbours in either order |
| Panes.ExchangeInTwo | tmux/commands/cmd-swap-pane.c:91-99 | the list operations exchange two panes of two lists |
| Panes.SourcePane | tmux/commands/cmd-swap-pane.c:64-74 | with a direction, the pane to exchange is the neighbour of the target in the list, around its ends |
| Panes.SwapPane | tmux/commands/cmd-swap-pane.c:79-149 | exactly two panes change places in the lists of their windows; every place keeps its cell, geometry and floating flag; cells and panes stay each other's; two floating panes are refused |
| Panes.SwapBack | tmux/commands/cmd-swap-pane.c:79-149 | exchanging two panes and exchanging them again restores lists, stacking order, cells, geometry, floating flags and windows, and says which panes are active then |
| Panes.RotateWindow | tmux/commands/cmd-rotate-window.c:57-109 | the panes move by one place, every place keeps its cell and geometry, cells and panes stay each other's, and the active place stays active |
| Panes.RotateBack | tmux/commands/cmd-rotate-window.c:57-109 | rotating a window and rotating it the other way restores its panes, their cells and geometry and the active pane |
| Panes.RotatedTimes | tmux/commands/cmd-rotate-window.c:57-109 | rotating n times moves the last n panes to the front |

## Left out

- Winlinks.Session.ShuffleUp: does not model the index one above the largest, which overflows when a window is put behind a neighbour that has the largest index; the model finds no room there.
- GridHistory.AllPreservedTwice: the equality of the two results is characterised only with room for all lines; without it AllPreservedAgain says whether lines are added, and the results can still be equal by coincidence.
- CmdQueue.Server.Next: a command that inserts items behind itself does so in a step of its own, InsertAfter, before it is fired, and not in this loop, which ends only if commands do not queue more of themselves.
- CmdParse.BuildCommands: does not model parse errors, the text of commands and arguments, or the printing of lists; the lists of arguments in braces are built, but not attached to their command.
- Freeing a client, state or command list whose references reach zero.
- RecoveryState.WrappedSequenceIsReused: is stated from the state after the wrap, not as a run of more than four thousand million commands.
- Closed panes: the items and the restoring of panes, including the restore that fails after the pane has moved.
- Windows linked more than once, session groups and the renumbering of windows after one is killed.
- The current window of a session and the stack of previous ones in the recovery model; an emptied session is destroyed.
- The comparison of pane histories with snapshots after a restore.
- The stacks of previously active panes, zooming, and the recalculation of pane sizes from the layout in `swap-pane` and `rotate-window`.
- Copies of the cells of a grid line share nothing with the original in C; lines are values here.
- CmdFind.FindState.FindTarget: requires a client that has a session for the targets of the client's current window; without one the code dereferences a null pointer.
- Inputs of 2 gigabytes and more, for which the position in the base64 decoder's target overflows.
- Commands other than `wait-for` that suspend their item, guards and messages around a command, and the formats of a state.
- Input and output, clocks, options, environments, notifications, logging and redrawing.
