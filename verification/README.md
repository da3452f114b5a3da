# A verified model of the Wi-Fi stick USB switcher

The daemon on a Wi-Fi stick switches a USB gadget between RNDIS (network) and ADB. A button, IPC
requests and start-up options select a gadget; a goroutine rebuilds it, the main loop waits for the
bus to settle, a second goroutine binds it, and failures are rolled back. Around that the daemon
merges button taps, plays LED programs, leases and hands out addresses, replaces and restores
`/etc/resolv.conf`, and issues short-lived TLS certificates for names that its rules admit.

The project models these parts and proves what they keep over all inputs and all runs.

| file | models |
|---|---|
| `GadgetSpec.dfy`, `GadgetApply.dfy`, `SelectionLaws.dfy` | the `name[.submode]` notation, the two-phase apply protocol as a step relation, and what taps and requests add up to |
| `ApplyInvariants.dfy`, `ApplyTheorems.dfy` | the invariant, a sequential reference automaton and the theorems over all runs |
| `ApplyEdges.dfy`, `PendingRebuild.dfy`, `GadgetInPlace.dfy`, `PlacementRuns.dfy`, `EnabledSubmode.dfy` | where the protocol keeps less than its design suggests, with the exact conditions |
| `Daemon.dfy` | the daemon object, valid after every turn and segment, and whole schedules of them |
| `TapChains.dfy`, `TapExpiry.dfy`, `InputDevice.dfy` | tap merging, in rounds and at once, and the press/timer/wake-up machine |
| `EventLoop.dfy`, `StalledChange.dfy` | the blocking main loop, and changes that nothing wakes it for |
| `LedProgram.dfy`, `LedInterpreter.dfy` | the cyclic LED program and the cancel-and-replace event loops |
| `Division.dfy`, `Word32.dfy`, `RndisNetwork.dfy`, `ResolvConf.dfy` | 32-bit masks, leases, the DHCP pool; saving and restoring `resolv.conf` |
| `NetAddr.dfy`, `DomainFilter.dfy`, `CertificateCache.dfy` | addresses and prefixes as numbers, the `--tls-allow` rules, certificate issuing and its cache |
| `Environment.dfy`, `Text.dfy` | the environment of adbd; string helpers |

How things are modelled. Each locked section, each pass of the main loop and each goroutine segment
between two blocking calls is one atomic step; USB outcomes, the clock, button events, requests,
crypto results and `netip` parsing come from outside as parameters. Concurrent parts are stated over
runs (`IsRun`), and every property that speaks of a run holds for all of them and for every state in
them. Objects that the program updates in place are classes whose methods are proved equal to the
step functions that the lemmas are about.

What the source suggests and does not keep, with a concrete case, the exact condition, or both:

- Between spawning the start-up apply and its first statement the lock is not held yet; a pass that
  selects something in that window starts a second apply (`ApplyEdges.LaunchSingleIff`).
- Requesting the gadget text that a query answered is a no-op only for the first gadget of its name
  (`ApplyEdges.EchoIsNoOpIff`).
- A gadget change that is still pending when a submode change follows, by button or by request, is
  applied as a submode change only (`PendingRebuild.CollapsesIff`, `PendingRebuild.BeginsCollapsedIff`).
- A submode-only apply need not reconfigure the gadget in place, and the last good gadget need not be
  in place (`GadgetInPlace.ReconfiguresInPlaceIff`, `GadgetInPlace.LastGoodInPlaceIff`).
- The end of an apply does not wake the main loop, so a change made meanwhile may wait for the next
  wake-up (`StalledChange.StalledIff`).
- The submode that is committed is that of the snapshot, while the gadget's `enable` reads the
  selection anew (`EnabledSubmode.CommittedIsEnabledIff`).
- Draining in several rounds is invisible while no round but the last finds the tap window over; when
  one does, it shows unless what follows breaks the chain anyway and is no tap or a row of taps that
  stay apart (`TapChains.DeferralInvisible`, `TapExpiry.ExpiryShowsIff`).
- A regular `resolv.conf` whose first line looks like the link mark, or a link whose target holds a
  line break, comes back as something else (`ResolvConf.CycleIff`). The comment on the backup says
  that a missing file is handled as a deletion on restore; the code leaves the generated file in
  place, and the model follows the code.
- The root's expiry is checked before the key is generated, so a leaf signed more than a minute after
  the root's end starts outside the root's window (`CertificateCache.LeafInsideRootIff`).
- On a byte boundary the leased address is the network, broadcast or router address when the
  template's host part is that address's; elsewhere it is the router's own address for one router
  position (`RndisNetwork.LeaseArithmetic`, `RndisNetwork.AlignedClash`).
- A failed write of the entry mode's `Off` counts as a loop, so the submode may be shown without the
  dark period (`LedProgram.EntryCounterIff`).
- A simulated long press is never released and swallows a real press, the next one or the one going
  on (`InputDevice.PressQueuesIff`, `InputDevice.ReleasesAccounted`).
- Without rules, `/generate` serves DNS names that `/ask` refuses (`CertificateCache.AskAgreesWithGenerate`).

## Model

| member | source | states |
|---|---|---|
| GadgetSpec.ParseIff | core/daemon/daemon.go:544-559 | a text is read as a gadget name and submode exactly when it is that dot-free name, alone (submode 0) or followed by a dot and that non-negative number |
| GadgetSpec.ParsePrint | core/daemon/daemon.go:544-559 | reading back the `name.submode` text that a query prints gives the same gadget and submode, and trimming leaves the text alone |
| GadgetSpec.GadgetNamedIff | core/daemon/daemon.go:691-697 | a gadget is found by its own name and by no other |
| GadgetSpec.PrintedEntry | core/daemon/daemon.go:684-704 | the printed form of a gadget is an entry for it exactly when it supports the submode, and its bare name stands for submode 0 |
| GadgetSpec.DefaultEntries | core/daemon/daemon.go:679-682 | without entries the daemon has RNDIS in gateway mode and then ADB |
| GadgetSpec.BuildModes | core/daemon/daemon.go:677-705 | the mode table is accepted exactly when every entry is, keeps their order, is never empty and starts each gadget on a submode it supports |
| GadgetApply.OnEvent | core/daemon/daemon.go:1056-1099 | an input event keeps all indices and submodes in range, and never changes the selection without marking a change |
| GadgetApply.Select | core/daemon/daemon.go:275-289 | the requested gadget and submode become the selection; nothing changes exactly when they already were |
| GadgetApply.OnRequest | core/daemon/daemon.go:251-292 | a request keeps the selection in range, answers with the gadget selected afterwards, and a refused one changes nothing |
| GadgetApply.FirstNamed | core/daemon/daemon.go:262-268 | the index of the first gadget of that name, or none |
| SelectionLaws.TapsCycleGadgets | core/daemon/daemon.go:1074-1078 | n taps outside the submode selection move n gadgets on, cyclically, and leave every submode alone |
| SelectionLaws.TapsCycleSubmodes | core/daemon/daemon.go:1066-1073 | n taps in the selection move n submodes on, cyclically over the supported ones, on the same gadget |
| SelectionLaws.FullRound | core/daemon/daemon.go:1066-1078 | a full round of taps comes back to the same selection, marked for a new apply of its kind |
| SelectionLaws.LastWishWins | core/daemon/daemon.go:1056-1099 | a change is marked exactly when some event wishes for one, the last such event decides between rebuild and reconfiguration, and the selection is on after an odd number of long taps |
| PendingRebuild.InputEffect | core/daemon/daemon.go:1064-1098 | two guards, visible before an input, tell exactly whether it reconfigures the current gadget, asks for a rebuild, or changes neither the gadget nor the kind of apply due; buttons and requests alike |
| PendingRebuild.CollapsesIff | core/daemon/daemon.go:283-287 | one input turns a pending rebuild into a reconfiguration exactly when a rebuild is pending and it is a tap in the submode selection, or a request whose first-named gadget is the current one on another supported submode |
| PendingRebuild.CollapsedIff | core/daemon/daemon.go:1056-1130 | in every state of every run, a reconfiguration is due on another gadget than the one at work exactly when such a collapse was the last thing that mattered: no later change of gadget, multiple tap, rollback or beginning undid it |
| PendingRebuild.BeginsCollapsedIff | core/daemon/daemon.go:748-776 | an apply begins as a reconfiguration of a gadget other than the last good one exactly when a collapse is in effect |
| GadgetInPlace.RunPlaces | core/usb/controller.go:151-170 | in every state of every run, what the trace has put in place fits the job at work: nothing while a full apply rebuilds, its own target from then until it ends, and otherwise a site whose last good gadget is that of its last submode-only commit or the one built |
| GadgetInPlace.LastGoodInPlaceIff | core/daemon/daemon.go:776-792 | at rest the gadget in place is the last good one exactly when the last rebuild did not fail and the last submode-only commit since it was built, if any, was its own |
| GadgetInPlace.ReconfiguresInPlaceIff | core/usb/controller.go:317-324 | every submode-only apply reconfigures the gadget in place exactly when there is one and, on a site where no other gadget was committed, no collapse is in effect; after such a commit, exactly when a collapse is in effect that has gone back to the gadget built |
| PlacementRuns.ReconfiguresTheAbsent | core/usb/controller.go:118-122 | a run in which a collapsed reconfiguration of ADB is committed over RNDIS, and the next one reconfigures ADB, last good and never built |
| PlacementRuns.ReconfiguresThePresent | core/daemon/daemon.go:1066-1078 | a run in which a gadget other than the last good one is reconfigured and is the one in place |
| PlacementRuns.ReconfiguresNothing | core/daemon/daemon.go:886-891 | a run in which the start-up rebuild fails without a rollback and the next submode tap reconfigures a gadget that is not there |
| PendingRebuild.AwayIsPending | core/daemon/daemon.go:1114-1130 | another gadget than the one at work is selected only while a change is pending or about to begin |
| PendingRebuild.ButtonCollapses | core/daemon/daemon.go:1066-1078 | a tap, a long tap and a tap collapse a rebuild |
| PendingRebuild.RequestCollapses | core/daemon/daemon.go:283-287 | a tap and a request for the new gadget's other submode collapse a rebuild |
| SelectionLaws.RequestReaches | core/daemon/daemon.go:251-292 | the printed form of any configured gadget selects the first of that name on exactly that submode; a submode beyond the maximum is refused |
| SelectionLaws.RequestIdempotent | core/daemon/daemon.go:251-292 | asking twice is asking once |
| ApplyInvariants.PassKeeps | core/daemon/daemon.go:472-491 | a pass of the main loop keeps the whole invariant and moves the one sequential job exactly as the pass shows |
| ApplyInvariants.SegmentKeeps | core/daemon/daemon.go:745-998 | every goroutine segment, with any USB outcome, keeps the invariant and moves the sequential job exactly as it shows |
| ApplyInvariants.FailKeeps | core/daemon/daemon.go:896-938 | a failed apply, before or after its `enable` read the submode, keeps the invariant and moves the sequential job exactly as it shows; which way it goes is stated by `ApplyTheorems.FailureDecides` |
| ApplyInvariants.DispatchKeeps | core/usb/rndis.go:179-186 | reading the live submode inside `enable` keeps the invariant; with nothing newly selected it is the snapshot's |
| ApplyInvariants.FallBackKeeps | core/usb/rndis.go:353-356 | giving up client mode in the middle of `enable` keeps the invariant, in applies and in rollbacks |
| ApplyInvariants.EnableKeeps | core/daemon/daemon.go:859-882 | the return of `enable` commits or fails its own target, and commits only what was enabled |
| ApplyInvariants.UndoReturnKeeps | core/daemon/daemon.go:971-997 | the end of a rollback releases the lock and leaves the last good selection, or its fallback |
| ApplyInvariants.StepKeeps | core/daemon/daemon.go:745-1131 | every step keeps single ownership, bounds and agreement, and refines the sequential automaton |
| ApplyTheorems.RunKeeps | core/daemon/daemon.go:407-491 | every state of every run satisfies the invariant, and the trace so far is accepted by the sequential automaton and ends in the phase that the state stands for |
| ApplyTheorems.OneOwner | core/daemon/daemon.go:745-875 | goroutines, channel messages and the armed rebind together are at most one, and one exactly while `mode_changing` is set; the phase-one send never finds the channel full |
| ApplyTheorems.QuietAgreement | core/daemon/daemon.go:878-998 | with no apply in flight and nothing newly selected, the current gadget is the last good one on its last good submode or on 0 |
| ApplyTheorems.BoundsAlways | core/usb/rndis.go:179-186 | over all runs every index names a gadget and every live, saved or in-flight submode is one its gadget supports, so whatever RNDIS reads when it is enabled, the unknown-submode error is never reached |
| ApplyTheorems.OnlyClientFallsBack | core/usb/rndis.go:179-186 | what can be given up is exactly an `enable` that took the client branch on the submode it read; gateway mode is submode 0 |
| ApplyTheorems.EndsItsOwnTarget | core/daemon/daemon.go:845-866 | whatever is committed or reported failed is the target snapshotted by that very apply, whatever was tapped in between: the trace directly before it is that apply alone; a commit follows its `enable`, at once for a submode-only apply, otherwise after it was built, settled for the rebind delay and was bound |
| ApplyTheorems.FailureDecides | core/daemon/daemon.go:884-938 | for every failure in every run, with the last good configuration that the trace remembers: with more than one gadget and a target that differs from it in gadget or submode, it is selected again and one rollback takes over, by reconfiguring after a submode-only apply and by rebuilding otherwise; in all other cases the failure is released at once with the error shown |
| ApplyTheorems.HeldTurnIsLast | core/daemon/daemon.go:1046-1054 | the turn that finds the button held takes in nothing, and no turn follows it |
| ApplyTheorems.NothingBlocks | core/daemon/daemon.go:835-840 | in every state of every run the main loop can turn unless it has shut down, and every goroutine can go on: it may fail at any time, succeed once `enable` has read the submode, and give up client mode whenever it was entered |
| ApplyTheorems.RebindDelayKept | core/daemon/daemon.go:835-840 | phase two directly follows a phase one that ended at least the rebind delay earlier |
| ApplyTheorems.ReleasesItsFailure | core/daemon/daemon.go:896-998 | every release ends the rollback of the failure before it; one that succeeded put a submode back after a submode-only apply, or rebuilt the last good gadget, let it settle for the rebind delay and bound it |
| ApplyTheorems.DuePassBinds | core/daemon/daemon.go:1034-1037 | after a phase one that ended at some moment, a pass that has received its message starts phase two exactly when the rebind delay has passed since; the job handed over carries that target and is the only one |
| ApplyTheorems.RunRemembers | core/daemon/daemon.go:878-938 | the last good configuration is the last one committed in the trace, or the start-up one; `apply_error` is set exactly while the last ending was a failure that no rollback repaired |
| ApplyEdges.LaunchSingleIff | core/daemon/daemon.go:423-424 | before the start-up apply takes the lock, the gadget keeps a single owner exactly as long as no pass selects anything |
| ApplyEdges.TapDoubles | core/daemon/daemon.go:1114-1130 | a single tap in that window leaves two apply goroutines |
| ApplyEdges.LaunchEntersInv | core/daemon/daemon.go:745-768 | once that apply takes its snapshot in a quiet window, the invariant of all runs holds |
| ApplyEdges.EchoIsNoOpIff | core/daemon/daemon.go:251-292 | sending a queried gadget back changes nothing exactly when it is the first of its name |
| ApplyEdges.EchoJumps | core/daemon/daemon.go:262-268 | with a gadget listed twice the echoed request jumps to the first |
| EnabledSubmode.DispatchedBefore | core/usb/rndis.go:179-186 | in every run, an `enable` past its dispatch read, in an earlier step of the same apply, the submode selected at that moment |
| EnabledSubmode.CommittedIsEnabledIff | core/daemon/daemon.go:859-882 | the committed submode is the one the gadget was enabled on exactly when the submode selected at the moment of reading was the snapshot's, or client mode was given up and the snapshot was gateway mode; it was the snapshot's if nothing was selected anew by then |
| EnabledSubmode.TapSlipsIn | core/usb/rndis.go:179-186 | a tap between the snapshot and the reading: gateway mode is committed, client mode was enabled, and a further apply is pending |
| Daemon.Daemon.constructor | core/daemon/daemon.go:706-709 | the fields after the start-up apply's first segment are an initial state of the protocol and valid |
| Daemon.Daemon.FindGadget | core/daemon/daemon.go:262-268 | the scan finds the first gadget of the name, or runs to the end |
| Daemon.Daemon.SelectGadget | core/daemon/daemon.go:275-289 | the fields become those of the selected gadget and submode |
| Daemon.Daemon.HandleGadgetRequest | core/daemon/daemon.go:251-292 | selection and answer are those of the request step |
| Daemon.Daemon.HandleInputEvent | core/daemon/daemon.go:1064-1098 | the selection fields after one event |
| Daemon.Daemon.HandleInputEvents | core/daemon/daemon.go:1056-1099 | the selection fields after all drained events, in order |
| Daemon.Daemon.HandleGadgetRequests | core/daemon/daemon.go:240-249 | the selection fields after all queued requests, in order |
| Daemon.Daemon.StartDueRebind | core/daemon/daemon.go:1034-1037 | a due rebind is disarmed and its finish goroutine spawned, otherwise nothing changes |
| Daemon.Daemon.StartPendingApply | core/daemon/daemon.go:1114-1130 | a pending change takes the lock and spawns one apply, otherwise nothing changes |
| Daemon.Daemon.MainloopTurn | core/daemon/daemon.go:472-491 | one turn of the main loop is one protocol pass, keeps the object valid and never touches the last good configuration |
| Daemon.Daemon.FinishFailure | core/daemon/daemon.go:916-938 | the end of a failure: error flag, restored submode, lock released, goroutine gone |
| Daemon.Daemon.HandleApplyFailure | core/daemon/daemon.go:896-914 | the rollback that a failure starts, or its end without one |
| Daemon.Daemon.ReadSubmode | core/usb/rndis.go:179-186 | `enable` goes on with the submode selected at that moment |
| Daemon.Daemon.FallBackToGateway | core/usb/rndis.go:353-356 | in the middle of `enable`, the submode of the gadget being enabled is reset and nothing else |
| Daemon.Daemon.EnableReturned | core/daemon/daemon.go:859-875 | the fields after `Enable` or a reconfiguration returns |
| Daemon.Daemon.UndoReturned | core/daemon/daemon.go:955-998 | the fields after a call of a rollback returns: on to its bind after the delay, or the end of the failure |
| Daemon.Daemon.BeginApply | core/daemon/daemon.go:745-768 | snapshot, submode flag consumed, lock held |
| Daemon.Daemon.RebuildReturned | core/daemon/daemon.go:829-838 | the fields after phase one returns |
| Daemon.Daemon.CallReturned | core/daemon/daemon.go:745-998 | the fields after the return of the call that a goroutine is in |
| Daemon.Daemon.RunSegment | core/daemon/daemon.go:745-998 | one goroutine segment is one protocol step, keeps the object valid, and changes the last good configuration only to the target that this goroutine carries, by its success |
| Daemon.Daemon.Execute | core/daemon/daemon.go:407-491 | whatever the schedule of turns and segments, what was executed is a run of the protocol; afterwards the gadget has at most one owner, exactly while the lock is held, everything is in range, the last good configuration and the error are those of the trace, and at rest with nothing newly selected the last good configuration or its fallback is selected |
| Daemon.ExtendRun | core/daemon/daemon.go:470-491 | an enabled step extends a run to a run |
| TapChains.Normalize | core/input/handler.go:451-459 | the configuration defaults leave a positive long-tap threshold, a non-zero tap window and a maximum of at least two |
| TapChains.NormalizeKeeps | core/input/handler.go:451-459 | values that are set are kept, the others become 300 ms, 300 ms and five taps, and doing it again changes nothing |
| TapChains.ScanConcat | core/input/handler.go:393-407 | merging a concatenation is merging one part and going on with its open chain |
| TapChains.Segmentation | core/input/handler.go:365-444 | output and remaining queue are an in-order partition of the input; each multiple tap stands for two to the maximum of consecutive taps with no gap over the threshold; the rest is one such chain with its window open |
| TapChains.TapsConserved | core/input/handler.go:386-444 | taps in are taps out plus taps put back |
| TapChains.DeferralInvisible | core/input/handler.go:365-427 | any run of drains of which none but the last finds its window over gives the outputs and queue of one drain of everything at the end |
| TapChains.SimulatedTaps | core/daemon/daemon.go:358-373 | n simulated taps, drained at any moments within the window and once after it, are exactly one multiple tap of count n |
| TapExpiry.SplitIff | core/input/handler.go:393-424 | putting a chain out early and going on afresh gives the outputs and queue of one drain of everything exactly when nothing follows and its window is over by then, or what follows breaks the chain anyway and is no tap, or a row of taps that stay apart |
| TapExpiry.TapFirstIff | core/input/handler.go:393-407 | a tap in front goes out as it came, with the rest drained afresh, exactly when the taps from it on stay apart |
| TapExpiry.ExpiryShowsIff | core/input/handler.go:365-427 | rounds of which one finds its window over, and no later one but the last, give the outputs and queue of one drain of everything exactly under that condition |
| TapExpiry.ExpiryAlwaysShows | core/input/handler.go:393-424 | whatever the later rounds find: once a drain found its window over and the next event would still have extended its chain, the outputs differ |
| TapExpiry.ExpiryShows | core/input/handler.go:411-424 | any two quick taps with a drain in between that finds the window over: two taps, where one drain yields a double tap |
| InputDevice.NoLostWakeUp | core/input/handler.go:145-178 | in every run, a consumer about to block with events queued has a full wake slot, a signal under way, or the multi-tap timer at the last tap plus the threshold |
| InputDevice.ReleasesAccounted | core/input/handler.go:180-361 | in every run, injected presses included and callbacks firing at any time, releases are logged events plus releases that met a press marked as reported by an injection alone; each event belongs to a press of its own, is a long tap of at least the threshold or a tap of less, and ends that long after its press began |
| InputDevice.OneEventPerPress | core/input/handler.go:180-293 | hence without injected presses each completed press queued exactly one event |
| InputDevice.LogIsQueued | core/input/handler.go:189-206 | what a press records is what it queues, one event at a time |
| InputDevice.LongTapReportsIff | core/input/handler.go:186-207 | a long-tap callback queues and records exactly the long tap of the press going on, marks it reported and wakes the consumer if the key is down, unreported and has been down for the threshold; otherwise it changes nothing |
| InputDevice.LongTapIsOfThePress | core/input/handler.go:186-207 | in every run such a callback's event belongs to the press that is still going on, and spans it |
| InputDevice.QueueGrows | core/input/handler.go:252-293 | what each step appends to the queue, field by field: injected events, the event of a release, that of a callback, and nothing else |
| InputDevice.DrainArms | core/input/handler.go:409-424 | a drain leaves no timer when nothing is put back, otherwise the timer at the end of the last tap's window, or a full wake slot when that is no longer to come |
| InputDevice.RunServes | core/input/handler.go:180-427 | in every run, what the consumer has been given and what is left is what the rounds of draining make of what arrived, in the order of arrival |
| InputDevice.PressQueuesIff | core/input/handler.go:241-293 | a key down and a key up queue exactly one event unless they meet a press marked as reported, and then none |
| InputDevice.InjectedPressSwallows | core/input/handler.go:354-361 | an injected press swallows the next real one, and one that is already going on |
| InputDevice.Device.constructor | core/input/handler.go:446-474 | a device starts with the defaults filled in and nothing pressed, queued or armed |
| InputDevice.Device.KeyDown | core/input/handler.go:241-251 | the fields after a key down |
| InputDevice.Device.KeyUp | core/input/handler.go:252-293 | the fields after a key up |
| InputDevice.Device.LongTapFired | core/input/handler.go:186-207 | the fields after a long-tap callback, stale or not |
| InputDevice.Device.Inject | core/input/handler.go:340-348 | the event is queued and a signal is due |
| InputDevice.Device.SimulatePress | core/input/handler.go:354-361 | the fields of a press held for the duration |
| InputDevice.Device.PressState | core/input/handler.go:299-335 | the press going on with its duration, a long tap exactly from the threshold on, and no press otherwise |
| InputDevice.Device.MergeEvents | core/input/handler.go:393-407 | the loop computes the merged output and the open chain of the whole queue |
| InputDevice.Device.Drain | core/input/handler.go:365-427 | output, queue, timer and wake slot after a drain |
| EventLoop.BlockedIsCovered | core/daemon/daemon.go:439-491 | whenever the main loop blocks, the rebind deadline and a watched press each have a timer due no later (or due now), the press possibly a pending wake-up, and queued events and queued requests have something that brings the loop back |
| EventLoop.PassedDeadlineWakes | core/daemon/daemon.go:439-491 | a deadline that has passed never leaves the loop asleep |
| EventLoop.ShutdownIff | core/daemon/daemon.go:1046-1054 | a turn ends the daemon exactly when a watched button has been down for the shutdown threshold |
| EventLoop.ArmsForTheLeast | core/daemon/daemon.go:439-468 | the timer is armed exactly when a deadline is in force, for the least of them if that is still to come and for right now if it has passed |
| EventLoop.HandleStartsDue | core/daemon/daemon.go:1034-1037 | a handled wake-up leaves no rebind that was due |
| EventLoop.SimulatedShutdown | core/daemon/daemon.go:352-357 | a simulated press held for the shutdown threshold ends the daemon when the loop handles its wake-up |
| StalledChange.UnservedIff | core/daemon/daemon.go:865-875 | in every run, a change waits with the lock free exactly when the lock was released under it and no wake-up has been handled since; and one job at a time is at work, exactly under the lock |
| StalledChange.StalledIff | core/daemon/daemon.go:865-875 | the loop sleeps on a change that it could apply exactly when it is blocked after such a release with nothing readable and nothing under way that would make anything readable |
| StalledChange.RequestStalls | core/daemon/daemon.go:1114-1130 | a run in which a request during the start-up apply is left waiting |
| EventLoop.LazyTimer.ArmLazyWait | core/daemon/daemon.go:439-468 | the timer is set to the earliest deadline in force, to now if that has passed, or stopped |
| LedProgram.PlayAllExecutes | core/led/interpreter.go:60-101 | with no errors, after n executed actions of a mode of length L the index is n mod L and the loop counter is ceil(n/L)-1 until it saturates, and the waits executed so far have passed |
| LedProgram.LitIsLastSwitch | core/led/mode.go:81-108 | the LED shows what the last executed On or Off said |
| LedProgram.BeatActsIff | core/led/interpreter.go:71-73 | a further beat executes the next action exactly when the wait that the last action began, if it was one, is over |
| LedProgram.OneAction | core/led/interpreter.go:60-90 | a mode of one action, such as plain on or off: attempted at every beat up to the first at which it succeeds and never again; the LED shows it from then on and the old state before; the counter is the number of attempts minus one |
| LedProgram.NoAction | core/led/interpreter.go:62-64 | a mode without actions does nothing |
| LedProgram.LoopsTakeTime | core/led/mode.go:81-108 | a loop counter of k means that k times the sum of the mode's waits has passed since its first action |
| LedProgram.SaturatedStep | core/led/interpreter.go:77-80 | the counter follows the number of loops until the bound and then cycles below it |
| LedProgram.EntryModeLasts | core/daemon/daemon.go:618-623 | when the entry mode's counter reaches one, the LED has been dark for the mode's full duration |
| LedProgram.PositionWithErrors | core/led/interpreter.go:60-101 | for any beats, failing ones included: the index is that of the successful actions, and the counter is ahead of the loops that these began by one for every failed attempt at the first action |
| LedProgram.EntryCounterIff | core/daemon/daemon.go:618-623 | with LED errors the entry mode's counter reaches one exactly when its second loop has begun, or attempts at its `Off` failed once before a success or twice |
| LedProgram.FailedOffSkipsTheWait | core/led/interpreter.go:75-85 | one failed `Off` lets the counter reach one with no wait |
| LedProgram.ModeBuilder.OnDuration | core/led/mode.go:43-45 | on, wait and off are appended in this order |
| LedInterpreter.OneLiveLoop | core/led/interpreter.go:110-249 | over all interleavings, exactly one uncancelled loop exists while the interpreter runs and none otherwise |
| LedInterpreter.StaleLoopsAreMute | core/led/interpreter.go:205-227 | a loop started under an earlier mode leaves the program untouched after `SetMode` returned |
| LedInterpreter.SinceSetMode | core/led/interpreter.go:205-249 | since the last mode change the program is what one player makes of the beats of whichever loops were live |
| LedInterpreter.RunPosition | core/led/interpreter.go:60-128 | in every run since `SetMode`, while no write fails, index, counter and LED are those of the number of executed actions, and the counter's loops took their waits |
| LedInterpreter.RunPositionWithErrors | core/led/interpreter.go:60-128 | in every run since `SetMode`, LED errors included, index and counter are those of the successful actions and of the failed attempts at the first one |
| LedInterpreter.RunOneAction | core/led/interpreter.go:60-128 | the same for one-action modes in every run since `SetMode` |
| LedInterpreter.Interpreter.SetMode | core/led/interpreter.go:110-128 | program reset, and every earlier loop cancelled; one uncancelled loop of the new mode exactly while running |
| LedInterpreter.Interpreter.Start | core/led/interpreter.go:173-182 | exactly one uncancelled loop afterwards, a new one unless the interpreter ran |
| LedInterpreter.Interpreter.Stop | core/led/interpreter.go:185-197 | no uncancelled loop afterwards |
| LedInterpreter.Interpreter.Act | core/led/interpreter.go:60-101 | the program after one action, and when an LED error is reported |
| LedInterpreter.Interpreter.PlayBeat | core/led/interpreter.go:149-158 | the first beat initialises, later ones act |
| LedInterpreter.Interpreter.Round | core/led/interpreter.go:205-234 | a goroutine's locked section plays one beat or ends it; one of an earlier mode leaves the program alone |
| RndisNetwork.MaskToPrefixIff | core/usb/rndis.go:556-564 | a mask gives prefix p exactly when it is p ones followed by 32-p zeros |
| RndisNetwork.MaskedIsNetwork | core/usb/rndis.go:780-782 | the bitwise masking gives the first address of the subnet |
| RndisNetwork.SubnetLastIsBroadcast | core/usb/rndis.go:775-788 | or-ing the inverted mask gives the last address of the subnet |
| RndisNetwork.CalcClientIp | core/usb/rndis.go:570-582 | the byte loop computes the client address |
| RndisNetwork.AlignedClientIp | core/usb/rndis.go:576-581 | on a byte boundary the address is the network plus the template's host part |
| RndisNetwork.ZeroByteTakesUpstream | core/usb/rndis.go:566-581 | byte by byte, the computed address follows the documented rule that a zero template byte takes the upstream byte |
| RndisNetwork.LeaseUsedIff | core/usb/rndis.go:245-252 | a lease is used exactly when its mask is contiguous and shorter than /30 |
| RndisNetwork.LeaseArithmetic | core/usb/rndis.go:245-262 | the leased address lies in the router's subnet; for every prefix, exactly when it is a host address and exactly when it is the router's own |
| RndisNetwork.AlignedClash | core/usb/rndis.go:576-581 | 192.168.137.1/24 with the template 0.0.0.1 gives the router's own address |
| RndisNetwork.PoolIsBetween | core/usb/rndis.go:685-696 | the pool is exactly the addresses strictly between the stick and the broadcast address, inside the subnet, and is skipped exactly when that range is empty |
| ResolvConf.RoundTrip | core/usb/rndis.go:369-421 | any number of entries, exits and cycles that ends with an exit gives back the original kind, target and content with no backup left |
| ResolvConf.CycleIff | core/usb/rndis.go:388-421 | entering any number of times and leaving restores the original exactly when it is readable and its form is not mistaken for the other |
| ResolvConf.Mangled | core/usb/rndis.go:410-418 | the other readable originals come back as a different file or link |
| ResolvConf.GeneratedNames | core/usb/rndis.go:370-379 | the text written, read back line by line, names exactly the servers found, in their order, or the fallback alone when none was found |
| ResolvConf.Files.BackupResolvConf | core/usb/rndis.go:388-401 | only the first entry saves, and only a readable file |
| ResolvConf.Files.ResolvText | core/usb/rndis.go:370-379 | the generated text, with the fallback server when none is known |
| ResolvConf.Files.ApplyDns | core/usb/rndis.go:369-384 | the files after an entry |
| ResolvConf.Files.RestoreDns | core/usb/rndis.go:404-421 | the files after an exit |
| DomainFilter.ParseRuleIff | core/daemon/domain_filter.go:46-74 | a rule text is accepted as a rule exactly when it is that rule's mark and a valid name, or a CIDR prefix; no mark is mistaken for another |
| DomainFilter.ParseDomainFilter | core/daemon/domain_filter.go:43-77 | all rules in order, or the first refused entry and its reason |
| DomainFilter.LabelsConcat | core/daemon/tls_service.go:312 | splitting at a dot splits the label list |
| DomainFilter.JoinLabels | core/daemon/tls_service.go:312 | a name is its labels joined by dots |
| DomainFilter.HostNameChars | core/daemon/tls_service.go:309-322 | an accepted host name holds letters, digits, hyphens and dots only |
| DomainFilter.HostNameIff | core/daemon/tls_service.go:309-322 | the host names accepted are those of a character-by-character grammar (labels of 1 to 63 letters, digits and hyphens, none at either end), of at most 253 characters |
| DomainFilter.SuffixIff | core/daemon/domain_filter.go:103-119 | a string suffix beginning with a dot is a proper suffix of the label list, and conversely |
| DomainFilter.RuleIsLabelwise | core/daemon/domain_filter.go:98-125 | each rule kind matches the string exactly when it matches the label lists, case aside |
| DomainFilter.Allows | core/daemon/domain_filter.go:83-128 | the scans find a CIDR rule for an address and a name rule for a name, and no rules allow everything |
| DomainFilter.FilterIsLabelwise | core/daemon/domain_filter.go:43-128 | for every accepted non-empty rule list and every valid non-IP name, `allows` holds exactly when some rule matches on the label lists, whatever the case |
| DomainFilter.FilterIsByRange | core/daemon/domain_filter.go:87-94 | for every accepted non-empty rule list, a name that is an address is allowed exactly when one of the texts is a prefix of its family whose range holds it |
| NetAddr.ContainsIff | core/daemon/domain_filter.go:50-52 | a masked prefix contains exactly the addresses from its first one on, as many as it has, without a zone |
| NetAddr.RangeIsSubnet | core/daemon/domain_filter.go:89 | for IPv4 that is the subnet from network to broadcast address |
| CertificateCache.LeafWithinRoot | core/daemon/tls_service.go:244-255 | every leaf names what was asked, starts no earlier and ends no later than the root, and has started by the time of its signing |
| CertificateCache.LeafLasts | core/daemon/tls_service.go:244-270 | every leaf ends the configured duration after its signing, or with the root if that comes first, and starts a minute before its signing, or with the root if that comes later, up to the second; it is made out to an address exactly when its name is one |
| CertificateCache.IssuesIff | core/daemon/tls_service.go:233-274 | a leaf is issued exactly when the root is not over at the check, has started at the signing, and key, serial and signature succeed |
| CertificateCache.LeafInsideRootIff | core/daemon/tls_service.go:233-255 | both bounds lie inside the root's window exactly when the leaf was signed before the root had been over for a minute and a second |
| CertificateCache.SlowKeyEscapes | core/daemon/tls_service.go:233-252 | a key that takes two minutes to make gives a leaf that starts after the root has ended |
| CertificateCache.KeyInjective | core/daemon/tls_service.go:287 | cache keys agree exactly when name and schemes do, for names without NUL |
| CertificateCache.KeyNeedsTheCheck | core/daemon/tls_service.go:287 | with a NUL in the name two requests would share a key |
| CertificateCache.ValidNamesAreNulFree | core/daemon/tls_service.go:305-323 | validated names hold no NUL |
| CertificateCache.AskAgreesWithGenerate | core/daemon/tls_service.go:146-218 | with rules, `/ask` approves a name exactly when `/generate` lets it pass; without, an approved name passes at every owned local address, and what passes there unapproved is exactly the names that are no address |
| CertificateCache.PassesIff | core/daemon/tls_service.go:176-218 | a request passes exactly when it is a GET from a parsable local address, in RNDIS mode, for a valid name without blanks around it, admitted by the rules, or without rules from an owned local address and not for a foreign one |
| CertificateCache.RefusalIff | core/daemon/tls_service.go:176-218 | which requests get 405, 400 and 403 |
| CertificateCache.AskStatusIff | core/daemon/tls_service.go:146-174 | which questions are approved, and which get 405, 400 and 403 |
| CertificateCache.CacheTraced | core/daemon/tls_service.go:286-303 | in every run each cache entry was issued and stored by an earlier admitted request under its own key |
| CertificateCache.AnswerIs | core/daemon/tls_service.go:200-230 | a request is refused at the gate, or answered from the cache, with a new leaf or with an internal error; only a new leaf changes the cache, under its own key |
| CertificateCache.ServedIsRequested | core/daemon/tls_service.go:176-303 | over all runs, what is served was issued for exactly the requested name and schemes, a valid and admitted name, and a cached one is still good for a minute less the signing time and the encoding's fraction of a second |
| CertificateCache.ServedAgain | core/daemon/tls_service.go:286-303 | what was issued is served again, the very same leaf, to every later admitted request for the pair while more than a minute is left of what was noted for it |
| CertificateCache.TlsService.GetOrGenerateCertificate | core/daemon/tls_service.go:286-303 | cache and result of one locked look-up |
| CertificateCache.TlsService.HandleGenerate | core/daemon/tls_service.go:176-230 | cache and answer of one request |
| Environment.MergeEnvs | core/usb/adb.go:327-347 | the nested loops compute the fold of single overrides |
| Environment.MergeOverrides | core/usb/adb.go:327-347 | the result is the inherited entries overridden in place, in order, followed by one entry for each new key in order of first appearance |
| Environment.MergedLookup | core/usb/adb.go:327-347 | looking a key up finds the last extra with it, else the inherited entry, and all entries with an overridden key agree |
| Environment.MatchesIff | core/usb/adb.go:334-337 | the prefix test is equality of keys |

## Left out

- The LED display in the apply protocol (blinking, entry mode hand-over, `turn_off_leds`, the start-up indication): it reads the protocol and does not feed back into it.
- libusbgx and configfs writes, UDC binding, `ip`, `udhcpc`, `dnsmasq`, `nmcli`, functionfs and adbd processes: USB calls succeed or fail arbitrarily.
- IPC transports, D-Bus, reflection and JSON conversion, status texts: plumbing.
- X.509 encoding beyond whole seconds, key generation, signature schemes and algorithm names: key, serial and signing succeed or fail arbitrarily.
- `netip` parsing and non-ASCII lower case: functions of a `Library` value. Used of them: lower case never yields an ASCII capital, and an address text without a zone holds no NUL.
- IPv6 in the RNDIS network arithmetic: its addresses are 32-bit words.
- Goroutine segments are cut at the reads and writes of the shared submode inside `enable`; other moments inside a blocking call are not told apart.
- Races on plain fields inside a step (`apply_function` reads the current mode twice, `set_current_mode` stores twice): steps are atomic.
- `Stop` and everything after it: runs end before it; a shutdown by long press ends them inside the model.
- TapExpiry.ExpiryShowsIff: decides runs of drains in which one before the last finds its window over; with more of them only `TapExpiry.ExpiryAlwaysShows` applies.
- GadgetInPlace: a rebuild that fails counts as leaving no gadget, although an early failure may leave parts of the old one on the bus.
- LedInterpreter.RunPosition: the waiting times are stated for stretches without LED write errors; with errors only position and counter are (`LedInterpreter.RunPositionWithErrors`).
- LedProgram: a failed write leaves the LED state as it was, although the kernel may have taken one of its two writes.
- Environment.MergeOverrides: extras without `=` are excluded; the code appends them or overwrites an entry of that key.
- ResolvConf: file writes succeed and nobody else writes the files; permissions and modes are not modelled.
- `OffDuration`, `Done`, `ResetLoopCount`, `SkipAction` with a step, `led/led.go` and the shutdown command: easy or foreign.
