# private-vm: a verified model of its protocols

private-vm runs disposable virtual machines under a privileged daemon. What has to be right in it are small
protocols that must survive the failure of any single step: a VPN that fails closed, locks that several RPCs nest,
a rendezvous between two goroutines, a file that crosses two guests, an archive that is unpacked under one budget.
This project models those protocols in Dafny and proves what they keep.

Each operation that updates an object is a method of a class, and its contract ties the new state to a step function
on values. What every sequence of calls, events or interleavings keeps is then proved about the step functions, for
runs of any length. Outcomes of external commands, of the network and of the clock are parameters, so a theorem that
names none of them holds for all of them. Hashes are an arbitrary function `H`. A reader splits its bytes in an
arbitrary way.

| file | what it models |
|---|---|
| `RoleLocks.dfy` | the per-session operation locks of the daemon and the workflow states read between them |
| `GuestVpn.dfy` | the guest VPN controller over its Linux backend, with the real nftables table and link beside the flags |
| `WorkspaceUsbSource.dfy`, `WorkspaceDestination.dfy` | the workspace to USB rendezvous and the transaction around it |
| `VerifiedTransfer.dfy`, `Exporter.dfy` | the scanner's verified transfer, the exporter's state machine and its device adapter |
| `Archives.dfy`, `Reconstruction.dfy` | archive inspection and the recursive reconstruction under a shared budget |
| `ScanCoverage.dfy`, `ToolEvidence.dfy`, `ScannerReport.dfy`, `ScannerService.dfy` | scan coverage, canonical tool evidence, the report decision and the scanner's phases |
| `CidAllocator.dfy` | the allocator of VSOCK context IDs |
| `SensitiveInput.dfy`, `TorrentFraming.dfy`, `CliParsing.dfy` | bounded secret input, torrent framing from client to guest, command-line values |
| `Bytes.dfy`, `ByteOrder.dfy`, `LogicalNames.dfy`, `Readers.dfy` | what these share: byte strings, sorting by string keys, the names of reports, a reader with arbitrary splits |

## Where the code does less than one would expect

Seven properties one might expect are false of the code. Each has a counterexample and the exact condition under which
it holds.

* No output of the scanner reaches the exporter. The scanner names every output `sanitized/...`
  (internal/guest/scanner_production.go:1393-1408), and the daemon, its promotion into a workstation and the exporter
  all refuse a name with a slash (internal/usb/export.go:43-46, internal/orchestrator/scanner_promotion.go:70-73,
  internal/transfer/frame.go:21-38). So its own begin frame never opens a write, for any digest and type
  (`Exporter.ScannerBeginIsRefused`). Under a name that is one safe path component the whole stream does become the
  final file, and `Exporter.EndToEnd` states exactly when.
* No file of the workstation reaches the USB destination. Its begin frame gives no media type
  (internal/workstation/server.go:320-321), and the daemon refuses an output without one (internal/usb/export.go:47).
  So in no interleaving is a chunk of it passed on (`WorkspaceUsbSource.WorkstationNeverPasses`).
  `WorkspaceUsbSource.PassedOnExactly` states exactly which streams can be passed on to their end.
* The online application can really run without the tunnel link, and even without the drop table: `Verify` is admitted
  after a failed `Stop` and starts it. For each of the two, and for the flags, the exact condition of such a `Verify`
  is proved (`GuestVpn.VerifyExposesExactly`, `GuestVpn.TableExposedExactly`, `GuestVpn.FlagsExposedExactly`), with
  runs that reach it (`GuestVpn.ExposureIsReachable`). A caller that calls no `Verify` while its latest `Stop` has
  failed is safe (`GuestVpn.CarefulRunsStayOverTunnel`).
* A reconstruction that succeeds can leave no valid report. The report demands that no two findings share path, code
  and identifier, and two members of one archive whose joined paths are too long are reported alike, under the
  archive's path (`Reconstruction.LongMembersRepeat`, `ScannerReport.LongNamesLeaveNoReport`).
* A quarantine with one empty file, or one file name with a backslash, passes inventory and scan and never gets a
  report, not even a rejecting one (`ScannerService.EmptyFileIsStuck`, `ScannerReport.EmptyFileLeavesNoReport`). For
  this and the property before it the exact condition is `ScannerReport.ReportHoldsExactly`.
* A comment at `internal/cli/input.go:109-110` says that stdin matches terminal input. For one LF-terminated line it
  does, except for a value of the full length followed by CRLF, which only the terminal refuses
  (`SensitiveInput.TerminalAgreesExactly`).
* A torrent within its byte limit can be refused for how the client read it: what counts is that at most 1024 reads
  were needed (`TorrentFraming.Submit`, `TorrentFraming.ShortReadsCanBeRefused`).

## Model

| member | source | states |
|---|---|---|
| `RoleLocks.ReachableInv` | internal/daemon/role_service.go:32-41 | in every reachable state each lock has the one holder whose RPC is inside it, and every nesting RPC still has the workflow facts it read |
| `RoleLocks.NestingKept` | internal/daemon/usb_workflow.go:127-147 | no event of any RPC or session can invalidate the workflow state a nesting RPC relies on while it waits for its inner lock |
| `RoleLocks.DeadlockFree` | internal/daemon/scanner_service.go:320-360 | with any number of RPCs, whenever one waits for a held lock, some lock holder can take a step |
| `RoleLocks.NoWaitCycle` | internal/daemon/workspace_usb_destination.go:74-100 | no cycle of waiting RPCs of any length, and no chain of more than five |
| `RoleLocks.MutualExclusion` | internal/daemon/role_service.go:32-41 | two RPCs that hold the same session lock are the same RPC |
| `RoleLocks.RolesAloneCanDeadlock` | internal/daemon/workspace_service.go:185-199 | without the workflow reads the nesting of roles does admit a deadlock of three RPCs |
| `RoleLocks.LockStepsBounded` | internal/daemon/role_service.go:32-41 | a run holds at most five lock steps for each RPC in it, whatever else happens between them |
| `RoleLocks.CanDrain` | internal/daemon/scanner_service.go:96-113 | from every reachable state all pending RPCs can run to their end |
| `GuestVpn.LinuxBackend.ArmKillSwitch` | internal/guestvpn/backend.go:101-120 | the flag follows a reported success only, while the real table may exist after a lost result |
| `GuestVpn.LinuxBackend.ConfigureTunnel` | internal/guestvpn/backend.go:122-160 | the tunnel flag is set before the link can exist |
| `GuestVpn.LinuxBackend.RemoveTunnelInterface` | internal/guestvpn/backend.go:162-179 | the tunnel flag goes only with a reported removal of the link |
| `GuestVpn.LinuxBackend.RemoveKillSwitchTable` | internal/guestvpn/backend.go:181-198 | the table is not touched while the tunnel flag is set |
| `GuestVpn.Controller.ConfigureVpn` | internal/guestvpn/controller.go:94-142 | the whole new state of both layers for every outcome of every command of a Configure |
| `GuestVpn.Controller.Verify` | internal/guestvpn/controller.go:144-173 | the whole new state for every outcome of a Verify, including one admitted in `degraded` |
| `GuestVpn.Controller.Stop` | internal/guestvpn/controller.go:186-233 | the whole new state for every outcome of a Stop, which stops at the first failure |
| `GuestVpn.Controller.StopOnlineDetached` | internal/guestvpn/controller.go:276-285 | the online flag falls only with a reported stop |
| `GuestVpn.RunKeepsInv` | internal/guestvpn/controller.go:94-233 | every run of Configure, Verify and Stop keeps the invariant that ties controller, backend and reality together |
| `GuestVpn.FailClosedAlways` | internal/guestvpn/backend.go:101-198 | over every run, with each command free to fail before or after taking effect, the link never really exists without the drop table, not even between two commands |
| `GuestVpn.LayersAgree` | internal/guestvpn/controller.go:94-233 | in every reachable state the flags of both layers agree, `verified` has a complete proof, and online means configured, tunnelled and dropped unless a Stop failed since the last Configure |
| `GuestVpn.CleanStopStops` | internal/guestvpn/controller.go:186-233 | one Stop whose commands succeed ends every reachable state in `stopped` with no link, no flag and no application; the table remains exactly when it exists unowned; another such Stop changes nothing |
| `GuestVpn.TableCanRemain` | internal/guestvpn/backend.go:101-120 | an arming whose result was lost leaves such a table |
| `GuestVpn.VerifyExposesExactly` | internal/guestvpn/controller.go:144-173 | a Verify can leave the application really running without the link if and only if it is admitted for a role with an online service that is not active, while the link is gone |
| `GuestVpn.TableExposedExactly` | internal/guestvpn/controller.go:144-173 | the same for the drop table |
| `GuestVpn.FlagsExposedExactly` | internal/guestvpn/controller.go:144-173 | by the flags: a Verify can leave the service active without a configured tunnel if and only if it is admitted with `configured` false |
| `GuestVpn.OthersKeepContained` | internal/guestvpn/controller.go:94-233 | no Configure and no Stop, whatever fails in it, breaks any of the three |
| `GuestVpn.CarefulRunsStayOverTunnel` | internal/guestvpn/controller.go:94-233 | in every run in which no Verify is called while the latest Stop has failed, the application really runs only with the link and behind the table, and the flags say so |
| `GuestVpn.ExposureIsReachable` | internal/guestvpn/controller.go:218-229 | runs from a fresh controller that end with the application running with neither link nor table, and running without the link while every flag says the tunnel is up |
| `GuestVpn.BackendAloneCanExpose` | internal/guestvpn/backend.go:101-198 | the backend by itself does not fail closed: the order in which the controller calls it is needed |
| `WorkspaceUsbSource.ApprovedSource.Next` | internal/daemon/workspace_usb_destination.go:308-352 | which frame is acknowledged when, and the new state, for every frame, closed channel and state |
| `WorkspaceUsbSource.ApprovedSource.Close` | internal/daemon/workspace_usb_destination.go:354-386 | idempotent, releases the pending frame, succeeds exactly after an ended stream and a matching completion, and repeats that answer |
| `WorkspaceUsbSource.ApprovedSource.AckPending` | internal/daemon/workspace_usb_destination.go:388-393 | the pending acknowledgement is given once |
| `WorkspaceUsbSource.RunKeepsInv` | internal/daemon/workspace_usb_destination.go:253-393 | every interleaving of producer and consumer, with the RPC context ending at any moment, keeps the acknowledgement, counting and origin invariants |
| `WorkspaceUsbSource.AcknowledgedOnce` | internal/daemon/workspace_usb_destination.go:308-393 | no frame is acknowledged twice and at most one delivered frame is unacknowledged |
| `WorkspaceUsbSource.HeldUntilNextCall` | internal/daemon/workspace_usb_destination.go:308-393 | of everything that can happen while a returned chunk is out, exactly the consumer's next Next or Close releases its frame; the producer waits for it until then |
| `WorkspaceUsbSource.EofIsEarned` | internal/daemon/workspace_usb_destination.go:253-352 | EOF means that the returned chunks were delivered in this order behind a valid begin frame that describes the output, have its size, and are followed by an end frame with its size and digest |
| `WorkspaceUsbSource.ProducerNeverOrphaned` | internal/daemon/workspace_usb_destination.go:253-386 | after Close or a refused begin the producer can always go on |
| `WorkspaceUsbSource.NoMutualWait` | internal/daemon/workspace_usb_destination.go:308-393 | a waiting consumer never waits for a producer that waits for it |
| `WorkspaceUsbSource.CleanCloseIsEarned` | internal/daemon/workspace_usb_destination.go:354-386 | a clean Close follows a complete stream with every frame acknowledged, and the callback has returned with a matching receipt |
| `WorkspaceUsbSource.WellFormedIsTaken` | internal/daemon/workspace_usb_destination.go:308-352 | in every interleaving: behind a valid begin frame every delivered chunk of a well-formed stream is returned, and its end frame ends it |
| `WorkspaceUsbSource.PassedOnExactly` | internal/daemon/workspace_usb_destination.go:253-352 | there is a run that returns exactly these parts behind this begin frame and reports the end if and only if the begin frame passes every check (identifier, name, media type, size, digest) and the parts are sized, few enough and make up the size |
| `WorkspaceUsbSource.WorkstationBeginIsRefused` | internal/workstation/server.go:320-321 | for every file the begin frame of the workstation fails that check |
| `WorkspaceUsbSource.WorkstationNeverPasses` | internal/daemon/workspace_usb_destination.go:284-295 | in every interleaving that starts with such a frame the source is refused and no chunk is returned |
| `WorkspaceDestination.SelectExporter` | internal/daemon/workspace_usb_destination.go:58-73 | a session is chosen if and only if exactly one ready exporter of the owner exists, and it is that one |
| `WorkspaceDestination.Prepare` | internal/daemon/workspace_usb_destination.go:74-119 | the session lock stays held exactly when a transaction is returned |
| `WorkspaceDestination.Transaction.Receive` | internal/daemon/workspace_usb_destination.go:121-186 | one-shot: a second use changes nothing and runs no source, and lock and cleanup are settled on every path |
| `WorkspaceDestination.Transaction.CleanupSession` | internal/daemon/workspace_usb_destination.go:197-212 | a cleanup that succeeded is not repeated |
| `WorkspaceDestination.Transaction.Release` | internal/daemon/workspace_usb_destination.go:214-220 | the lock is given back by the first release only |
| `WorkspaceDestination.Transaction.Abort` | internal/daemon/workspace_usb_destination.go:188-195 | retries a failed cleanup and releases the lock if it is still held |
| `WorkspaceDestination.AnyUseReleasesOnce` | internal/daemon/workspace_usb_destination.go:121-220 | however often and in whatever order a transaction is used: its lock is released exactly once, cleanup is retried until it first succeeds and never after, and the source runs at most once in all |
| `WorkspaceDestination.ExportToDestination` | internal/daemon/workspace_service.go:199-245 | the lock is released exactly once before the RPC returns; success if and only if cleanup, receipt, equal relay and reread digests and guest verification all hold, and then the source ran exactly once |
| `VerifiedTransfer.ChunkedCarries` | internal/guest/scanner_service.go:471-514 | the frames cut from a content carry exactly that content: numbered, full but for the last, closed by its size and hash |
| `VerifiedTransfer.SendChunks` | internal/guest/scanner_service.go:471-500 | the read and send loop sends exactly those chunks, or a prefix of them when the content is short or the stream fails |
| `VerifiedTransfer.ExportApprovedFile` | internal/guest/scanner_service.go:471-514 | succeeds if and only if the opened content is the one in the report, and then the frames carry it; otherwise no end frame is sent |
| `VerifiedTransfer.SanitizedNameIsRefused` | internal/guest/scanner_production.go:1393-1408 | whatever the digest and type, the name the scanner makes is refused by the exporter and by the daemon |
| `Exporter.FixedExporterAdapter.PrepareDevice` | internal/guest/exporter_adapter_linux.go:184-219 | what is open and mounted after each failing step |
| `Exporter.FixedExporterAdapter.Begin` | internal/guest/exporter_adapter_linux.go:221-240 | a new writer over an empty partial file and no final file, or none |
| `Exporter.FixedExporterAdapter.Write` | internal/guest/exporter_adapter_linux.go:328-342 | file and hash grow by the same bytes; after a fault only the file may |
| `Exporter.FixedExporterAdapter.CommitFile` | internal/guest/exporter_adapter_linux.go:344-374 | the partial file becomes the final one only with the described size and hash |
| `Exporter.FixedExporterAdapter.Reread` | internal/guest/exporter_adapter_linux.go:242-273 | the hash of the whole final file, read in chunks |
| `Exporter.FixedExporterAdapter.FinalizeDevice` | internal/guest/exporter_adapter_linux.go:275-288 | unmounts before it closes, and only without a writer |
| `Exporter.FixedExporterAdapter.CleanupDevice` | internal/guest/exporter_adapter_linux.go:290-326 | aborts, unmounts and closes in this order, each attempted as far as the one before allows |
| `Exporter.AssemblePassphrase` | internal/guest/exporter_service.go:222-246 | accepts if and only if there are at most four frames of 1 to 256 bytes with at least eight bytes together, and yields their concatenation; the 1024-byte bound never decides |
| `Exporter.ExporterService.WriteVerifiedFile` | internal/guest/exporter_service.go:262-334 | the new state of service and device for every begin frame, frame sequence and fault |
| `Exporter.ExporterService.PrepareExactUsb` | internal/guest/exporter_service.go:207-260 | the new state of service and device for every passphrase stream and command outcome |
| `Exporter.ExporterService.VerifyWrittenFile` | internal/guest/exporter_service.go:336-353 | `verified` only when the reread hash equals the written one |
| `Exporter.ExporterService.FinalizeUsbDevice` | internal/guest/exporter_service.go:355-371 | `finalized` only after a successful unmount and close in time |
| `Exporter.ExporterService.Close` | internal/guest/exporter_service.go:373-388 | idempotent after success, retried after failure |
| `Exporter.ExporterService.FailWith` | internal/guest/exporter_service.go:390-405 | every failure cleans up and ends in the incomplete state |
| `Exporter.AbsorbedExactly` | internal/guest/exporter_service.go:294-333 | the receive loop accepts a frame sequence if and only if it starts with the described content and a matching end frame and no write fails |
| `Exporter.WrittenExactly` | internal/guest/exporter_service.go:262-334 | for any frames whatever: written if and only if the begin frame passes the header check, the others are its content and no command fails, and then the final file is the concatenation of the chunks |
| `Exporter.EndToEnd` | internal/guest/exporter_service.go:262-334 | the frames of a content, begin frame included, make it the final file byte for byte if and only if it is nonempty and within the bound, its digest is a SHA-256 one, its name one safe path component and its identifier and media type valid; otherwise nothing changes |
| `Exporter.ScannerBeginIsRefused` | internal/guest/exporter_service.go:431-439 | no begin frame with a name the scanner makes ever opens a write |
| `Exporter.Ownership` | internal/guest/exporter_service.go:184-405 | after every RPC sequence with arbitrary failures: a mount only over an open mapper, no writer between RPCs, prepared states mounted, ended states holding nothing, `verified` with equal hashes |
| `Exporter.CloseEnds` | internal/guest/exporter_service.go:373-388 | from any reachable state one clean Close releases everything, and nothing succeeds after it but Close |
| `Exporter.OneStepAtATime` | internal/guest/exporter_service.go:184-405 | a successful RPC moves exactly one phase on; a failed one changes nothing or ends the service |
| `Archives.InspectMembers` | internal/scan/archive.go:149-167 | the member loop passes if and only if all members are plain, their paths are distinct and every count and total is within its limit, and the totals are exact |
| `Archives.Inspect` | internal/scan/archive.go:48-180 | a plan if and only if the archive satisfies depth, limits, parsing, members and expansion ratio; with supported limits every refusal is a content rejection |
| `Reconstruction.Run.InspectWithinBudget` | internal/guest/scanner_production.go:1201-1232 | a plan if and only if something is left of entries and bytes and the archive is admissible within it and not empty |
| `Reconstruction.Run.Charge` | internal/guest/scanner_production.go:1201-1234 | the budget equals the sum of all accepted plans, charged before extraction, within the policy totals |
| `Reconstruction.Run.ProcessArchive` | internal/guest/scanner_production.go:1201-1292 | ends for archives nested without end, because each one uses up the shared entry budget; success means every member was seen |
| `Reconstruction.Run.Expand` | internal/guest/scanner_production.go:1235-1256 | an extraction that cannot be removed outranks every other result |
| `Reconstruction.Run.ProcessMembers` | internal/guest/scanner_production.go:1257-1291 | on success each member was processed as clean or has its own finding, and nothing recorded before is lost |
| `Reconstruction.Run.ProcessEach` | internal/guest/scanner_production.go:1269-1281 | the member loop sees every member or ends at the first failure, and with healthy adapters never fails |
| `Reconstruction.Run.ReportArchive` | internal/guest/scanner_production.go:1282-1290 | an archive of the same digest, format and depth is reported once; the one-byte depth key never confuses two |
| `Reconstruction.ToldApartByDigest` | internal/guest/scanner_production.go:1282-1290 | if a digest determines its content, reported archives differ in digest or depth alone |
| `Reconstruction.Run.ProcessEntry` | internal/guest/scanner_production.go:1122-1199 | at most one output at every point, also after failures; success settles the entry; an archive never fails the run with a content rejection, and with healthy adapters no content does |
| `Reconstruction.Run.ProcessDocument` | internal/guest/scanner_production.go:1156-1199 | a second document is a finding, never a second output |
| `Reconstruction.MemberPath` | internal/guest/scanner_production.go:1294-1297 | a member path is refused if and only if the joined path is over 4096 bytes |
| `Reconstruction.Adapter.Reconstruct` | internal/guest/scanner_production.go:1016-1064 | success: exactly one output or at least one finding, outputs held by the adapter, every clean file explained, every finding under its right path, every archive record complete and unrepeated; always: charges within the policy totals; failure: nothing kept that could be cleaned up, and no failure at all while every adapter works |
| `Reconstruction.Adapter.Cleanup` | internal/guest/scanner_production.go:1324-1346 | keeps exactly the outputs that could not be cleaned and closes exactly when none is left |
| `Reconstruction.NothingHidden` | internal/guest/scanner_production.go:1122-1292 | without findings every processed entry is the promoted document, a document that yielded nothing, or an archive whose members were all clean and processed |
| `Reconstruction.WholeTreeProcessed` | internal/guest/scanner_production.go:1257-1280 | without findings every member at any depth of any archive was processed |
| `Reconstruction.OneDocument` | internal/guest/scanner_production.go:1156-1160 | without findings there is only one document in the whole tree that yields anything |
| `Reconstruction.LongMembersRepeat` | internal/guest/scanner_production.go:1269-1273 | any two members of one archive under too long a path are reported alike |
| `Reconstruction.TwoLongNames` | internal/guest/scanner_production.go:1269-1273 | a reconstruction with such an archive that succeeds: a ZIP of two stored members, under the limits of the shipped safe policy |
| `Reconstruction.LongNameComponents` | internal/scan/archive.go:182-205 | no component of the names used there is longer than 255 characters |
| `ScanCoverage.ValidateScanSummary` | internal/guest/scanner_service.go:730-752 | accepts if and only if the scan is complete, its findings are well-formed, name no path twice and judge every inventoried file |
| `ScanCoverage.CoverageIsExact` | internal/guest/scanner_service.go:730-752 | the judged paths are exactly the inventoried ones if and only if the inventory names no file twice |
| `ScanCoverage.CollectInputs` | internal/guest/scanner_service.go:766-782 | fails if and only if some file has no verdict, and otherwise gives each file its own |
| `ScanCoverage.ReportInputs` | internal/guest/scanner_service.go:766-785 | the inputs of all files, each once, in path order |
| `ScanCoverage.InputsAreCanonical` | internal/scan/report.go:350-357 | the sorted inputs are strictly increasing, as the report demands, if and only if no file is named twice |
| `ScanCoverage.EveryFileHasItsVerdict` | internal/guest/scanner_service.go:730-785 | after an accepted scan the verdict of a file is the code of its only finding, clean exactly when that does not block |
| `ScanCoverage.InputsNeverMissing` | internal/guest/scanner_service.go:766-785 | after an accepted scan no report input can be missing |
| `ToolEvidence.KeyOrdersByName` | internal/guest/scanner_service.go:787-793 | for names without NUL the joined key orders by name first |
| `ToolEvidence.KeyDetermines` | internal/guest/scanner_service.go:787-793 | for names without NUL the joined key identifies the tool |
| `ToolEvidence.NulConfusesKeys` | internal/guest/scanner_service.go:787-793 | with NUL in a name it does not |
| `ToolEvidence.CompactInPlace` | internal/guest/scanner_service.go:794-800 | compaction into the array it reads from gives what compaction of the original would |
| `ToolEvidence.CanonicalTools` | internal/guest/scanner_service.go:787-801 | the compacted sort of the input, for any order the library gives equal keys |
| `ToolEvidence.CanonicalForm` | internal/guest/scanner_service.go:787-801 | strictly increasing with the same set of tools |
| `ToolEvidence.CanonicalIsUnique` | internal/guest/scanner_service.go:787-801 | there is only one such form, whatever the sort does |
| `ToolEvidence.LengthDetectsDuplicates` | internal/guest/scanner_service.go:803-810 | the comparison of lengths finds exactly the repeated tools |
| `ToolEvidence.NeighboursDecide` | internal/guest/scanner_service.go:811-816 | comparing neighbours finds exactly the repeated names |
| `ToolEvidence.ValidateConfiguredTools` | internal/guest/scanner_service.go:803-818 | accepts if and only if there are 1 to 256 well-formed tools with pairwise different names, and returns them sorted |
| `ToolEvidence.NamesStrictExactly` | internal/scan/report.go:389-396 | the canonical list of well-formed tools is strictly increasing by name, as the report demands, if and only if no tool has two versions |
| `ByteOrder.SortedStrictlyExactly` | internal/scan/report.go:350-378 | sorting makes a list strictly increasing if and only if no two elements share a key |
| `LogicalNames.PlainPathNames` | internal/scan/report.go:345-348 | of the paths the inventory accepts, the report refuses exactly those with a backslash |
| `LogicalNames.PlainPathJoined` | internal/guest/scanner_production.go:1294-1297 | an archive path joined with a member path is such a path again |
| `ScannerReport.FindingKeySeparates` | internal/scan/report.go:369-378 | without NUL the joined key is path, code and identifier |
| `ScannerReport.ArchiveKeySeparates` | internal/scan/report.go:359-367 | the archive key is digest and depth |
| `ScannerReport.ArchiveKeyOrders` | internal/scan/report.go:359-367 | the archive key orders by digest and then by depth |
| `ScannerReport.ReportHoldsExactly` | internal/scan/report.go:130-248 | with well-formed tools the report passes the clauses on inputs, archives, findings, tools and decision if and only if there are files, none twice, none empty and all with acceptable names; no two archives share digest and depth; no two findings share path, code and identifier and their paths are acceptable; there are at most 256 tools, none in two versions; and something blocks or there is something to promote under the safe policy |
| `ScannerReport.EmptyFileLeavesNoReport` | internal/scan/report.go:152-158 | one empty file or one backslash in a name leaves no valid report |
| `ScannerReport.ArchivesAlwaysFit` | internal/scan/report.go:159-167 | if a digest determines its content, the archives of a reconstruction pass their clause |
| `ScannerReport.ReportFollows` | internal/guest/scanner_service.go:661-721 | if the scanner blocks the members it does not find clean, a digest determines its content and names are plain, the report of a successful reconstruction is valid if and only if inventory and tools can be reported and no two findings share path, code and identifier; it is approved with exactly one output when nothing was found, otherwise rejected with none |
| `ScannerReport.UndecidedExactly` | internal/scan/report.go:230-246 | without the assumption on the scanner a decision is missing if and only if nothing was produced, the scan is clean and every finding is a member verdict that does not block |
| `ScannerReport.RepeatedIsRefused` | internal/scan/report.go:369-378 | two findings of the reconstruction in the same words leave no valid report, whatever else was found |
| `ScannerReport.LongNamesLeaveNoReport` | internal/guest/scanner_production.go:1269-1273 | a reconstruction that succeeds and leaves no valid report |
| `ScannerService.ScannerRpc.BindContext` | internal/guest/scanner_service.go:589-602 | the first well-formed request fixes the session for good |
| `ScannerService.ScannerRpc.ValidateRequest` | internal/guest/scanner_service.go:553-567 | admits exactly the requests of the bound session, without a policy, in the given phases |
| `ScannerService.ScannerRpc.ValidatePolicyRequest` | internal/guest/scanner_service.go:569-587 | admits exactly the requests of the bound session and the chosen policy in the given phase |
| `ScannerService.ScannerRpc.UpdateDefinitionDatabase` | internal/guest/scanner_service.go:213-231 | the new state for every outcome |
| `ScannerService.ScannerRpc.DefinitionsStatus` | internal/guest/scanner_service.go:233-254 | the new state for every outcome; moves on from boot only |
| `ScannerService.ScannerRpc.VerifyOfflineMode` | internal/guest/scanner_service.go:256-280 | the new state for every outcome |
| `ScannerService.ScannerRpc.Inventory` | internal/guest/scanner_service.go:282-308 | the new state for every outcome, also when the last message is not delivered |
| `ScannerService.ScannerRpc.ScanFiles` | internal/guest/scanner_service.go:310-343 | moves on exactly when the scan covers the inventory |
| `ScannerService.ScannerRpc.BuildAndSign` | internal/guest/scanner_service.go:661-721 | a signed report if and only if every input has its verdict, all clauses on the evidence hold, and what no content decides and the signature succeed |
| `ScannerService.ScannerRpc.CheckReport` | internal/scan/report.go:149-246 | the list-by-list validation decides exactly the clauses on inputs, archives, findings, tools and decision |
| `ScannerService.ScannerRpc.Reconstruct` | internal/guest/scanner_service.go:345-400 | moves on exactly with a signed report of what its adapter returned; then the adapter holds what the report lists; otherwise only outputs that cannot be cleaned up are left |
| `ScannerService.ScannerRpc.RunAdapter` | internal/guest/scanner_service.go:357-379 | what is reported is what the adapter returned in time, or nothing for a blocked scan |
| `ScannerService.ScannerRpc.Publish` | internal/guest/scanner_service.go:380-399 | the report is stored exactly when it was signed, and otherwise the outputs are cleaned up |
| `ScannerService.ScannerRpc.ExportApprovedOutput` | internal/guest/scanner_service.go:415-470 | exports exactly what an approved report lists to its own session; the adapter still holds a listed output |
| `ScannerService.ScannerRpc.ScanReport` | internal/guest/scanner_service.go:402-413 | the report goes to its own session and policy only |
| `ScannerService.ScannerRpc.CloseService` | internal/guest/scanner_service.go:531-547 | idempotent; forgets everything once the adapter holds nothing, and keeps what it promises until then |
| `ScannerService.ReportRefusedExactly` | internal/guest/scanner_service.go:661-721 | after an accepted scan there is a report if and only if reconstruction, signing and what no content decides succeed, inventory, archives, findings and tools can be reported, and something blocks or was produced |
| `ScannerService.EmptyFileIsStuck` | internal/guest/scanner_service.go:282-400 | a run with a file of one byte and an empty one that reaches a complete clean scan, after which no reconstruction leads to a report |
| `ScannerService.NeverBackwards` | internal/guest/scanner_service.go:213-547 | over every stretch of every run of all nine RPCs the phase never moves back and session and policy never change |
| `ScannerService.NothingAfterClose` | internal/guest/scanner_service.go:531-547 | after Close a call of any of the nine RPCs succeeds if and only if it is Close |
| `ScannerService.ReportIsEarned` | internal/guest/scanner_service.go:256-400 | in every run a signed report exists only after offline verification, inventory, scan and reconstruction took effect in this order for its session, the last three under its policy, which is the safe one |
| `ScannerService.ReportListsOne` | internal/guest/scanner_service.go:661-721 | in every run a signed report lists exactly one output and nothing that blocks when it is approved, and none when it is rejected |
| `ScannerService.ExportIsEarned` | internal/guest/scanner_service.go:415-470 | in every run an export succeeds only for the one output of an approved report, earned by the four phases, and only for its session |
| `CidAllocator.Allocator.Allocate` | internal/guest/cid.go:43-60 | the scan from the cursor finds the first free CID in cyclic order, or stops after one cycle |
| `CidAllocator.Allocator.Reserve` | internal/guest/cid.go:62-76 | takes a free CID in range and nothing else |
| `CidAllocator.Allocator.Release` | internal/guest/cid.go:78-89 | gives back a CID in use and nothing else |
| `CidAllocator.Allocator.Advance` | internal/guest/cid.go:103-109 | the cursor wraps from the maximum to the minimum |
| `CidAllocator.FailsExactlyWhenFull` | internal/guest/cid.go:43-60 | fails if and only if the whole range is in use |
| `CidAllocator.ReturnsFirstFree` | internal/guest/cid.go:43-60 | a returned CID was free and in range, and all CIDs the cursor passed before it were in use |
| `CidAllocator.HeldAreDistinct` | internal/guest/cid.go:43-89 | over any history what callers hold is distinct, in range and exactly the used set |
| `CidAllocator.ReuseAfterWholeCycles` | internal/guest/cid.go:43-109 | two allocations of one CID are a nonzero whole number of cursor cycles apart, whatever happens between them |
| `SensitiveInput.SensitiveStream.ReadBytes` | internal/cli/input.go:279-325 | never yields more than its limit, and reports an excess byte instead of dropping it |
| `SensitiveInput.ReadAllSensitive` | internal/cli/input.go:375-400 | all bytes if they are within the limit and nothing otherwise, however they are split |
| `SensitiveInput.SensitiveStdin` | internal/cli/input.go:93-152 | for every split: accepted if and only if one to MaxBytes bytes remain after one line ending, and then exactly those |
| `SensitiveInput.SensitiveFile` | internal/cli/input.go:93-152 | for every split: exactly the bytes of a file of one to MaxBytes bytes whose reported size fits |
| `SensitiveInput.TrimMeaning` | internal/cli/input.go:513-521 | one LF or CRLF is removed, and nothing else |
| `SensitiveInput.PollTerminalLine` | internal/cli/input_linux.go:206-270 | for every split: the first line without its CR if the raw line fits, an error if it is too long or never ends |
| `SensitiveInput.TerminalAgreesExactly` | internal/cli/input_linux.go:255-267 | terminal and stdin agree on an LF-terminated line if and only if it is not a full-length value followed by CRLF |
| `TorrentFraming.AdmittedMeaning` | internal/daemon/torrent_service.go:368-400 | the running checks of the reader amount to sized chunks, at most 1024 frames and the byte limit |
| `TorrentFraming.HostTorrentReader.Read` | internal/daemon/torrent_service.go:368-400 | for every read size: the next bytes of the accepted chunks in order; EOF only at the true end with nothing pending; an error only for a frame that violates a bound |
| `TorrentFraming.SendTorrentInput` | internal/orchestrator/guest_client.go:403-460 | succeeds if and only if the client's stream is good, complete, nonempty and within the limit; its frames are then acceptable and carry all bytes; after a failure no frame is marked final |
| `TorrentFraming.AddTorrent` | internal/guest/downloader_torrent.go:17-76 | accepts if and only if the frames have one kind, sized chunks, a final marker exactly on the last frame, at most 1024 frames and the kind's byte limit; yields the exact concatenation |
| `TorrentFraming.CutShortIsRefused` | internal/guest/downloader_torrent.go:64-71 | a proper prefix of an accepted stream is never accepted |
| `TorrentFraming.Relay` | internal/orchestrator/guest_client.go:403-460 | the guest gets all the bytes of a good stream or refuses, whatever it sees of a failed relay |
| `TorrentFraming.SendFrames` | internal/cli/torrent_invoker.go:151-170 | one frame for each nonempty read |
| `TorrentFraming.Submit` | internal/cli/torrent_invoker.go:151-170 | client to guest: exactly the input arrives if and only if it is nonempty, within its kind's limit and took at most 1024 reads |
| `TorrentFraming.FullReadsFit` | internal/cli/torrent_invoker.go:151-170 | reads that fill the buffer need at most 1024 frames for every input up to 16 MiB |
| `TorrentFraming.ShortReadsCanBeRefused` | internal/daemon/torrent_service.go:386-390 | 1025 reads of one byte exceed the frame limit for an input of 1025 bytes |
| `CliParsing.ParseFileSelection` | internal/cli/validate.go:208-245 | accepted if and only if the value splits into at most 4096 distinct positive 32-bit decimals within the length limit, and then in that order |
| `CliParsing.AcceptedIsSelection` | internal/cli/validate.go:208-245 | what is accepted is 1 to 4096 distinct positive 32-bit indexes |
| `CliParsing.OneMeaning` | internal/cli/validate.go:208-245 | a value has at most one meaning |
| `CliParsing.SplitOfJoin` | internal/cli/validate.go:221 | splitting undoes joining with commas |
| `CliParsing.SelectionRoundTrip` | internal/cli/validate.go:24 | every selection, printed as decimals with commas, is accepted as itself; the length limit never stands in its way |
| `CliParsing.SizeOf` | internal/cli/validate.go:146-179 | digits and a unit mean their product, and are refused if and only if it needs more than 64 bits |
| `CliParsing.OnlySizes` | internal/cli/validate.go:146-179 | nothing but digits followed by a unit is a size |
| `CliParsing.BytesRoundTrip` | internal/cli/commands.go:133 | the default memory, printed in bytes, is read back unchanged for every 64-bit amount |

## Left out

- gRPC, VSOCK, sockets, peer credentials, Polkit and tokens: transport; only messages and their lock and state effects are modelled.
- Real processes, files, nftables, LUKS and mounts: commands are parameters, and a reported success is taken as true; a failed mount or mapper open is taken to have had no effect.
- RoleLocks: models one set of locks shared by all RPCs; the server copies its service value after the USB destination captured the original (internal/daemon/server.go:75-79), and for two sets of locks no exclusion is claimed. External calls made under a lock are taken to return. Lifecycle phases beside the workflow states are not modelled.
- Monitoring of an established VPN and the status views: they only read the state that is modelled.
- Exporter.FixedExporterAdapter.Write: the writer is a value inside the adapter, so a second reference to a writer that was replaced is not captured. A malformed device expectation, refused before any state changes, is not modelled.
- Archives.Inspect: whether a member path is safe and what it normalizes to is a parameter. The expansion ratio is compared over reals, without floating-point rounding.
- Extraction itself and the rebuilding of documents: their results are parameters of the reconstruction.
- The strings of error messages, remediation texts and gRPC codes; error codes are kept where the code branches on them.
- ScanCoverage.ReportInputs: the library sort is an insertion sort here.
- ToolEvidence.ValidateConfiguredTools: the length of an identity is counted in characters, not in UTF-8 bytes.
- ScannerReport.ReportHoldsExactly: times, scanner and definition identities, digest and media-type syntax, the fields of an output and the tools that a transformation requires are one parameter of the service, because no content the scanner admits decides them. The JSON form and the authentication tag are not modelled.
- ScannerReport.ReportFollows: that non-clean members block is an assumption on the scanner; the ClamAV client of the repository satisfies it (internal/scan/clamav.go:150-167). That names are plain is what the inventory checks of every directory entry (internal/scan/inventory_linux.go:267-270), but for the backslash.
- Cancellation and deadlines of SensitiveInput and the torrent relay, zeroing of buffers, and failing sends of the relay.
- TorrentFraming.AddTorrent: does not tell its two refusal codes apart; the parsing of magnets and metainfo is not modelled.
- Concurrent calls of the CID allocator, the scanner service and the exporter service: each runs under one mutex and is modelled call by call.
- Session records, recovery, image and OCI handling, bundles, desktop and configuration: they would add easy members only.
