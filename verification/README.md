# PegaProx, proved

PegaProx manages clusters of virtual machines.  This project models seven of its parts and
proves what each of them promises, over every run and every input.

**The witness and its way back** (`Release*`, `UpdatesOnDisk`, `Witness*`). A witness keeps the
code it shipped with (the base) and the updates it unpacked, two links (`current`, `previous`)
and what it remembers of their health. `WitnessBoot` says what every step does to that
directory, `UpdatesOnDisk` does it in place, the others prove what holds over whole runs: no
update takes the last usable tree away, failing starts settle after a bounded number of trials,
a clean stop counts for nothing, an update is what starts next, one to the leader's release
stays preferred to every base, and what came up healthy, or was marked bad, is remembered.

**The gate and the framing of the witness server** (`Gate*`, `Framing*`). Who is let in and who
gives way, how calls are cut out of a stream that arrives in pieces of any size, and which of
them are taken.

**The answer file** (`Toml`, `TomlPrinter`, `TomlRoundTrip`, `Answer*`, `Webhook*`,
`RenderedModel`, `PythonText`). A reader for the part of TOML v1.0.0 the files are written in,
the printer of the guided setup, the builder and the independent check - which forms are taken,
what their files hold, which files pass -, what stripping and adding the webhook table does to a
document, printed or typed by hand, and when a file that was built can be served.

**Serving answer files** (`Serve*`). Fetches that read, yield and claim, against edits, token
rotations and deletes; a log of events is the reference.

**The change plan** (`Changes*`). Handlers that read a plan and write it back with a
compare-and-set, in any interleaving; who may do what, and when exactly.

**The cost report** (`Metrics`, `Columns*`, `Costs*`). The storage of guest samples in columns,
the loop over rows, and the engine over columns that has to give the same.

**The plugin sync** (`Plugin*`) and **the login attempts** (`Login*`, `AttemptsInPlace`): a
merge of two file trees; and a swept table beside one that never forgets, and beside the bare
history of requests.

Where an operation changes things step by step, a class or a method does it in place and is
proved against a function on values; the lemmas are about that function and about runs of it.

Some promises hold with an exception. Where the row says if and only if, exactly or exact, the
lemma names the exception for all inputs:

- a base that was marked bad and is installed again, and an update that prunes a tree with
  '.tmp-' in its release (`WayBackEndsIff`, with a run that gets there in `BadBaseComesBack`);
- an update whose very tree has spent its tries (`UpdateStartsIff`), and a start whose mark
  pushes that of the base out of a full list (`RunIsNoOlderThanBase`, `ForgettingStart`);
- a tree that comes up again, which is not remembered for longer (`ComingUpAgainRenewsNothing`);
- a dropped member that is promoted late (`GateIsBounded`, with a run in
  `LatePromotionIsOneTooMany`);
- heads of three lengths next to the limit (`CutsDecide`);
- sub-tables without a key (`PrinterAndReaderAgree`) and files over the size limit
  (`BuilderAgreesWithCheck`);
- the three characters at which a line is cut inside a string (`StrippedReadsIff`,
  `RenderedFormPasses`, with the form that gets there in `SeparatorInAKey`) or inside a comment
  (`StripIsRightIff`, `CommentBecomesText`), and an empty line at the end (`StripTextTwice`);
- an edit between the read and the claim of a fetch (`AnswerIsCurrentIff`, with a run in
  `EditedAnswerIsStale`), between the read and the write of another edit (`SecondEditRestores`),
  or between the read and the move of a submit (`SubmitMissesTheScope`);
- a plugin that ships the temporary name of another of its files (`EveryFileArrives`,
  `ShippedTemporaryIsLost`, `SyncTwiceIff`, with a plugin that goes in once in `GoesInOnce`);
- an attempt window under five minutes, which the settings allow, or one that is set longer while
  attempts are in the table (`SweepIsInvisibleIff`, `FailuresAreToldIff`).

## Model

| member | source | states |
|---|---|---|
| WitnessRuns.WayBackIsKept | pegaprox/witness_boot.py:478-555 | over every run of starts, updates, marks, endings and new bases, but for the steps Spares leaves out: both links name whole trees not marked bad, they differ, previous is set only where current is; the next start runs unmarked code and never because everything failed; a tree it marks had its failed starts, and another one runs |
| WitnessRuns.WayBackEndsIff | pegaprox/witness_boot.py:478-555 | the exception is exact: after such a run a step loses any of that if and only if it installs again a base that is marked bad while no update is in place, or is an update whose prune takes a tree a link names |
| WitnessRuns.InvHolds | pegaprox/witness_boot.py:300-555 | the invariant behind it, kept by every step Spares lets through |
| WitnessRuns.EverythingFailedIff | pegaprox/witness_boot.py:512-515 | a start runs its base because everything failed exactly when that is marked bad and no update is in place |
| WitnessBadBase.BadBaseComesBack | pegaprox/witness_boot.py:512-515 | a run from an empty directory that gets there: a base fails its trial beside an update, another base is installed, the update fails, and the first of the two is installed again |
| WitnessRuns.TwoPassesAreEnough | pegaprox/witness_boot.py:499-555 | for every health file, layout and base the loop of `choose` makes at most two passes, so its last error is never raised |
| WitnessRuns.SecondPassEnds | pegaprox/witness_boot.py:527-555 | marking a tree bad clears the trial, so the pass after it ends, with a tree to run exactly when there is a base or the links differ |
| WitnessRuns.ChooseIs | pegaprox/witness_boot.py:499-555 | what `choose` returns is what its last pass returns |
| WitnessRuns.MarkedIsEarned | pegaprox/witness_boot.py:527-554 | a tree is marked bad only when, within the trial on record, it never answered, or TRIES of its starts ended other than by a stop after it had answered |
| WitnessStops.CleanStopIsInvisible | pegaprox/witness_boot.py:345-356 | a trial start that answered and was stopped cleanly changes neither what the next start does nor the count of failed starts of the trial; the lists of health.json are left as they are read back |
| WitnessStops.StoppedStartRepeats | pegaprox/witness_boot.py:345-356 | for every base and disk the start after such a one does what that one did and marks nothing |
| WitnessHealthy.HealthyIsRemembered | pegaprox/witness_boot.py:371-382 | over every run from where a tree not on the list comes up healthy: until 32 other trees came up it is on the list of healthy ones, is not marked bad, no start marks it and no start puts it on trial |
| WitnessHealthy.TrialsAreUnproven | pegaprox/witness_boot.py:526-555 | a start puts no tree on trial that is on the list, so every trial that ends well puts its tree there |
| WitnessHealthy.ComingUpAgainRenewsNothing | pegaprox/witness_boot.py:376-377 | the 32 are counted from the first time it came up: a tree in front of a full list is forgotten with the next one, though it came up again right before |
| WitnessHealthy.MarkIsKept | pegaprox/witness_boot.py:533-550 | over every run from the start that marks a tree bad: until it comes up after all, an update by hand takes it again, or 32 others are marked, it stays marked, no start runs it while there is anything else, and an update that is not by hand leaves everything as it is |
| WitnessChoice.ProvenTreeRuns | pegaprox/witness_boot.py:525-526 | a tree on trial that answered and came up healthy runs at the next start, without a trial, and that start changes nothing |
| WitnessChoice.NeverAnsweredIsTheLast | pegaprox/witness_boot.py:358-368 | a tree on trial that never answered is marked by the next start, which runs something else |
| WitnessChoice.TwoTries | pegaprox/witness_boot.py:527-534 | a tree put on trial afresh runs once more when it ends without an answer, and after the second time the next start marks it |
| WitnessChoice.CommandNeverTries | pegaprox/witness_boot.py:519-526 | what a command next to the service runs: the code a start would prefer, or, where that is an update that never came up and there is other code, the one before it if that did, else the base, else the one before it; on no trial, and the disk stays as it is |
| WitnessChoice.UnwrittenTrialsAreNone | pegaprox/witness_boot.py:551-555 | where health.json cannot be written nothing runs on trial, and what is on disk of the health and the trees stays |
| WitnessChoice.TieIsHandedOn | pegaprox/witness_boot.py:537-541 | when the tree taken for the release of the base is marked, the one before it, of that release too, is what the start runs |
| WitnessRuns.StartIs | pegaprox/witness_boot.py:499-555 | what one start leaves on disk, from one pass or two |
| WitnessRuns.TakenUpdate | pegaprox/witness.py:1015-1038 | after an update current is the new tree and previous the one before it, both whole and not bad exactly unless the prune of the update takes one of them; no mark is added |
| WitnessRuns.TemporaryReleaseGoes | pegaprox/witness_boot.py:664-672 | a release with '.tmp-' in it is pruned by the first update to another one more than an hour after it was unpacked, though previous names it |
| WitnessRuns.HeldTreesStay | pegaprox/witness_boot.py:657-684 | a whole tree the links name stays whole in a prune exactly unless it passes for an old leftover |
| WitnessSettles.FailingStartsSettle | pegaprox/witness_boot.py:499-555 | with the trees fixed and every trial start failing in any way, at most 2 * TRIES starts are on trial, and after that the same tree runs without one, for every base, layout and health file |
| WitnessSettles.OneStart | pegaprox/witness_boot.py:527-554 | the measure: each failing start takes a trial start or a mark away, or the witness is settled |
| WitnessUpdates.UpdateStartsNext | pegaprox/witness.py:1011-1038 | with no newer base than the code that runs, the bundle an update put in place is what the next start picks, unless and only unless exactly that tree's tries are spent and there is something to go back to, or the update pruned it |
| WitnessUpdates.UpdateStartsIff | pegaprox/witness.py:1015-1038 | the same for every bundle, base and disk: where the base is preferred the update runs exactly when the base is out of tries |
| WitnessUpdates.SpentBeforeTheUpdate | pegaprox/witness.py:1015-1038 | the tries are spent after an update exactly when they were before it, for a tree neither healthy nor on trial while marked bad, with something to go back to |
| WitnessUpdates.RetakenAfterItsTries | pegaprox/witness.py:1015-1038 | for every bundle a disk where that is so, and the update does not start |
| WitnessUpdates.RunIsFollowedByItsUpdate | pegaprox/witness.py:1084-1116 | from a start over its own notes to the update it took and the next start: that condition, and the base is preferred only where the start forgets its mark |
| WitnessUpdates.RunIsNoOlderThanBase | pegaprox/witness_boot.py:516-518 | with no update to the leader's release held, a start picks code older than an unmarked base exactly when the bad list is full and begins with that base, the tree current names has used up its tries, and previous, which it goes back to, is older than the base |
| WitnessUpdates.ForgettingStart | pegaprox/witness_boot.py:516-555 | what the start does on each of those inputs: it marks current, forgets the mark of the base with that, and runs previous |
| WitnessTaken.UpdateLeaves | pegaprox/witness.py:1011-1038 | which updates are refused, and what the others leave: every file but exactly those the prune takes, both links, the hold, the tie, the mark and the trial of its tree, the healthy list |
| WitnessTaken.NewCodeIff | pegaprox/witness.py:1108-1116 | a bundle is taken for new code exactly when it is newer, of the same release but another tree than the code came from or by hand where that is not known, or older where that is asked for |
| WitnessTaken.TakenOnce | pegaprox/witness.py:1110-1112 | a witness that runs the tree of a bundle never takes that bundle again |
| WitnessHold.HeldStarts | pegaprox/witness_boot.py:417-430 | code held by an update to the leader starts, however new the base is, exactly unless its tries are spent and there is something to go back to |
| WitnessHold.LeadersUpdateStarts | pegaprox/witness.py:1015-1038 | an update to the leader's release, whatever that is, is held and starts next over any base, exactly unless its tries are spent or it pruned itself |
| WitnessHold.HoldLasts | pegaprox/witness_boot.py:405-414 | over any run without another update, through any bases, the hold lasts until a start marks that very code |
| WitnessUpdates.PruneKeepsTheNewest | pegaprox/witness_boot.py:657-684 | prune keeps what the links name and exactly the keep newest other versions; no bundle file outlives its tree; nothing else goes but old leftovers |
| WitnessUpdates.HeldTreePrunedIff | pegaprox/witness_boot.py:664-672 | a tree the links name is pruned exactly when its name holds '.tmp-' and it is older than an hour |
| Release.KeysAreOrdered | pegaprox/witness_boot.py:215-227 | release keys: exactly one of below, above, equal |
| Release.KeysAreTransitive | pegaprox/witness_boot.py:215-227 | below is transitive |
| Release.NotOlderIsTransitive | pegaprox/witness_boot.py:215-227 | not older is a total preorder |
| Release.PreReleaseIsOlder | pegaprox/witness_boot.py:215-227 | anything behind the numbers of a release makes it older, whatever the wire versions |
| Release.MissingComponentIsZero | pegaprox/witness_boot.py:215-227 | a missing component reads as 0 |
| ReleaseNumbers.ReleasesSort | pegaprox/witness_boot.py:215-227 | of any two written releases, of numbers of up to nine digits and any text behind them that is on one line, the first is older exactly when the first of six numbers that differs is less; or, those the same, when something follows its numbers and nothing the other's, or what follows sorts below; or, the texts the same, when its wire version is less |
| UpdatesOnDisk.Updates.constructor | pegaprox/witness_boot.py:300-312 | an updates directory nothing was unpacked into |
| UpdatesOnDisk.Updates.MarkUp | pegaprox/witness_boot.py:332-342 | the record of an answer, as the specification has it |
| UpdatesOnDisk.Updates.MarkStopped | pegaprox/witness_boot.py:345-355 | the record of a clean stop |
| UpdatesOnDisk.Updates.SpendTrial | pegaprox/witness_boot.py:358-368 | a trial start counts as spent |
| UpdatesOnDisk.Updates.MarkOk | pegaprox/witness_boot.py:371-382 | the tree is healthy, its trial over |
| UpdatesOnDisk.Updates.ForgetBad | pegaprox/witness_boot.py:392-402 | a mark is taken back |
| UpdatesOnDisk.Updates.MarkDown | pegaprox/witness_boot.py:405-414 | the release an update to the leader holds |
| UpdatesOnDisk.Updates.MarkSame | pegaprox/witness_boot.py:423-430 | the tree taken for the same release |
| UpdatesOnDisk.Updates.GoBack | pegaprox/witness_boot.py:485-496 | previous moves into current where it is usable, else current is cleared |
| UpdatesOnDisk.Updates.MarkFailed | pegaprox/witness_boot.py:534-550 | the failed tree is marked and gone back from |
| UpdatesOnDisk.Updates.Choose | pegaprox/witness_boot.py:499-555 | the loop of `choose` in place: the tree, whether on trial, and the files it leaves |
| UpdatesOnDisk.Updates.Install | pegaprox/witness_boot.py:603-635 | a bundle unpacked under its name, or kept when it is there whole |
| UpdatesOnDisk.Updates.Switch | pegaprox/witness_boot.py:648-654 | current and previous after a switch |
| UpdatesOnDisk.Updates.Prune | pegaprox/witness_boot.py:657-684 | the loops of prune leave what the specification keeps |
| UpdatesOnDisk.Updates.SortOut | pegaprox/witness_boot.py:667-674 | the first loop of prune: old leftovers go, the versions the links do not name are listed by time |
| UpdatesOnDisk.Updates.DropOldest | pegaprox/witness_boot.py:675-676 | the second: of those all but the last keep go |
| UpdatesOnDisk.Updates.DropOrphans | pegaprox/witness_boot.py:678-684 | bundle files without their tree go |
| UpdatesOnDisk.Updates.TakeUpdate | pegaprox/witness.py:1015-1038 | an update past its checks: gate on bad trees, install, switch, marks, prune |
| GateRuns.AdmissionIsFair | pegaprox/witness.py:1553-1570 | an admission drops nobody inside a call and no member: one of the newcomer's full source, or one of a group with the largest share, and of those one with the least clock |
| GateRuns.EvictionIsLeastRecent | pegaprox/witness.py:1572-1580 | the member that gives way is the idle one promoted the longest ago |
| GateSteps.AdmissionWrites | pegaprox/witness.py:1553-1565 | the newcomer comes last behind those that stay, in their order; one of its source goes exactly when that has all its places taken by idle ones, and then one of all exactly when the places are full and somebody is idle |
| GateSteps.PromotionWrites | pegaprox/witness.py:1572-1580 | a promoted connection is the last member and in the other list no more; one gives way exactly when it was no member, the places are taken and somebody is idle; nobody else changes |
| GateSteps.ReleaseWrites | pegaprox/witness.py:1582-1584 | a connection that ends is in neither list, and nobody else goes |
| GateSteps.ClocksAreLastMoves | pegaprox/witness.py:1549-1551 | in every run the clock of a connection is the time of its last move, it is a member once it was promoted, in the place of its last promotion, and busy while inside a call |
| GateRuns.GateIsBounded | pegaprox/witness.py:1533-1584 | in every reachable state: the two lists are disjoint, anonymous and per-source counts stay within their places and the peak of calls, so do the members but for one more for each promotion of a member that was dropped, and members stand in the order of their promotions |
| GateRuns.InvHolds | pegaprox/witness.py:1533-1590 | the invariant behind it over every run of accepts, steps, calls, promotions and ends, those of dropped connections too |
| GateLate.LatePromotionIsOneTooMany | pegaprox/witness.py:1572-1580 | the bound is reached: for any number of places a run from the empty gate, without a call, in which a member that gave way is promoted once more and the members are one more than the places |
| GateInPlace.Conn.constructor | pegaprox/witness.py:1511-1523 | a connection before its first step |
| GateInPlace.Gatekeeper.constructor | pegaprox/witness.py:1543-1547 | an empty gate |
| GateInPlace.Gatekeeper.Moved | pegaprox/witness.py:1549-1551 | the connection's clock is set and nothing else |
| GateInPlace.Gatekeeper.Admit | pegaprox/witness.py:1553-1565 | admission over the two ordered maps in place is the specification's |
| GateInPlace.Gatekeeper.GiveUpOwn | pegaprox/witness.py:1556-1558 | the per-source rule |
| GateInPlace.Gatekeeper.MakeRoom | pegaprox/witness.py:1559-1564 | the rule for all |
| GateInPlace.Gatekeeper.MostHeld | pegaprox/witness.py:1560-1563 | the largest share an idle connection's group holds |
| GateInPlace.Gatekeeper.FullestOf | pegaprox/witness.py:1563-1564 | the idle connections of the groups that hold that many |
| GateInPlace.Gatekeeper.Holds | pegaprox/witness.py:1560-1560 | how many connections a group holds |
| GateInPlace.Gatekeeper.IdleOnes | pegaprox/witness.py:1556-1561 | the idle connections, in their order |
| GateInPlace.Gatekeeper.Victim | pegaprox/witness.py:1567-1570 | the first of those with the least clock |
| GateInPlace.Gatekeeper.Promote | pegaprox/witness.py:1572-1580 | promotion in place: out of the one list, to the end of the other, one giving way |
| GateInPlace.Gatekeeper.Release | pegaprox/witness.py:1582-1584 | the connection is out of both lists |
| Framing.CutsDoNotMatter | pegaprox/witness.py:1612-1636 | however a steady stream is cut into reads, the same heads and bodies come out, the connection ends the same way and the same bytes are left |
| Framing.CutsOnlyBreakOff | pegaprox/witness.py:1612-1636 | for every stream, a cut can at most break the connection off early |
| Framing.CutsDecide | pegaprox/witness.py:1612-1692 | steady is exact: every way for the bytes to arrive gives what the whole stream gives if and only if no head of HEAD_MAX - 2 to HEAD_MAX bytes comes up at which the connection would be answered or go on |
| Framing.SomeCutsAgree | pegaprox/witness.py:1612-1692 | for every stream there is a way to arrive in which all of it comes out |
| Framing.HeadSplits | pegaprox/witness.py:1612-1627 | a head that comes out is the stream up to its first blank line, the rest is conserved; up to HEAD_MAX - 3 bytes it always does, over HEAD_MAX never |
| Framing.BodySplits | pegaprox/witness.py:1630-1636 | a body comes out exactly when the stream holds that many bytes, and is those |
| Framing.StreamIsConserved | pegaprox/witness.py:1681-1692 | heads, blank lines, bodies and what is left are the stream |
| Framing.EachLineIsAField | pegaprox/witness.py:1593-1609 | every header line of an accepted head is its own field |
| Framing.OneLength | pegaprox/witness.py:1713-1722 | a body is read by the one Content-Length, 0 without one, at most MAX_BODY, never beside Transfer-Encoding (section 6.2 of RFC 9112) |
| FramingHeads.HeadIsTakenIff | pegaprox/witness.py:1593-1609 | a head is taken exactly when it is composed of a request line of three parts and header lines with no name twice |
| FramingHeads.HeadIsTaken | pegaprox/witness.py:1593-1609 | and then with those parts, and under each name, lower case and trimmed, the trimmed value of its line |
| FramingHeads.FramedIff | pegaprox/witness.py:1708-1722 | a body is read exactly for a head that is taken, without query and transfer-encoding, of a length in up to nine digits up to 65536, and has that length; 413 is for a larger one, a dropped connection for what isdigit takes and int() does not, 400 for every other |
| FramingHeads.CallsGoOn | pegaprox/witness.py:1681-1734 | of every connection: each call it took was let in and has the body its head names, it went on after all but the last, and whether it ended with the last is whether it does not go on after that |
| FramingInPlace.Socket.constructor | pegaprox/witness.py:1618-1618 | the chunks still to arrive |
| FramingInPlace.Socket.Recv | pegaprox/witness.py:1618-1618 | one read takes at most so many bytes of the next chunk |
| FramingInPlace.ReadHead | pegaprox/witness.py:1612-1627 | the loop that grows the buffer gives what the specification reads |
| FramingInPlace.ReadBody | pegaprox/witness.py:1630-1636 | the same for the body |
| FramingInPlace.Connection | pegaprox/witness.py:1681-1692 | the loop over the calls of a connection |
| TomlRoundTrip.PrinterAndReaderAgree | pegaprox/api/auto_install.py:446-461 | parsing the printed model gives the model back exactly when it has no sub-table without a key |
| TomlPrinter.StringReads | pegaprox/api/auto_install.py:431-443 | scanning a printed string followed by any text stops at its closing quote and decodes to the string (TOML v1.0.0, section String) |
| TomlPrinter.ValueReads | pegaprox/api/auto_install.py:449-450 | a printed string or list of strings reads back |
| TomlRoundTrip.LinesRead | pegaprox/api/auto_install.py:452-461 | every printed line reads as the item it was printed for (TOML v1.0.0, sections Keys and Table) |
| TomlRoundTrip.SectionsRead | pegaprox/api/auto_install.py:452-461 | reading those items rebuilds the nested tables |
| TomlRoundTrip.EmptySubIsLost | pegaprox/api/auto_install.py:456-457 | of a sub-table without a key nothing is printed |
| AnswerAgreement.BuilderAgreesWithCheck | pegaprox/api/auto_install.py:509-692 | a file the guided setup builds passes the check exactly when it is not over the size limit |
| AnswerAgreement.BuilderReadsBack | pegaprox/api/auto_install.py:687-692 | what the guided setup prints reads back as its model, so its own check never raises |
| AnswerContents.AnswerHoldsTheForm | pegaprox/api/auto_install.py:509-692 | the file the guided setup gives back reads as the values of the form, each under its key, and nothing else: what each key holds is written out from the fields of the form, not from the builder's model |
| AnswerFields.FieldsAreWrongIff | pegaprox/api/auto_install.py:509-685 | a form that is not refused becomes a file exactly when no field is wrong, and else comes back with exactly the wrong ones, each given by its rule |
| AnswerFields.RefusedIff | pegaprox/api/auto_install.py:464-545 | a form is refused exactly when it is no dict, names a password in clear at some depth, or has a key or a shape the guided setup does not send |
| AnswerFields.PlaintextIff | pegaprox/api/auto_install.py:464-474 | a password in clear is found exactly where some path through dicts and lists leads to a dict with such a key |
| AnswerDemands.PassesIff | pegaprox/api/auto_install.py:246-388 | the check lets a text through exactly when it is not blank, within the size limit, TOML, and says in [global], [network] and [disk-setup] what is demanded there, by what dict.get finds: keyboard, country, mail, timezone, name and one good password; a whole static network or DHCP without leftovers; a filesystem, a disk list or a filter, a raid level it has with enough disks, and no options of another; and, where it has a webhook table, its header on a line of its own |
| AnswerDemands.FqdnIff | pegaprox/api/auto_install.py:175-189 | the rule for names takes exactly the dotted names of labels, and for a host two labels at least and the first not all digits |
| AnswerSize.TooManyKeys | pegaprox/api/auto_install.py:599-612 | fifty SSH keys within the form's limits make a file that is too large |
| AnswerSize.OneKeyFits | pegaprox/api/auto_install.py:599-612 | with one key of any length the form allows the file passes |
| AnswerLookup.FoundInModel | pegaprox/api/auto_install.py:262-385 | what dict.get finds in the parsed file is what the model holds there |
| AnswerAgreement.GlobalChecks | pegaprox/api/auto_install.py:262-312 | the [global] part of a form without wrong fields has nothing the check complains of |
| AnswerAgreement.NetworkChecks | pegaprox/api/auto_install.py:314-329 | the same for [network] |
| AnswerAgreement.DiskChecks | pegaprox/api/auto_install.py:331-374 | the same for [disk-setup]: filesystem, raid level, options tables and disks |
| AnswerAgreement.LevelFound | pegaprox/api/auto_install.py:224-229 | the raid level the check finds is the one of the form |
| Webhook.StripSection | pegaprox/api/auto_install.py:695-708 | the line loop with its flag gives the stripped lines |
| Webhook.StripKeepsTheRest | pegaprox/api/auto_install.py:695-708 | stripping keeps every line outside the webhook table, none inside it, in order |
| Webhook.StripTwice | pegaprox/api/auto_install.py:695-708 | stripping lines twice is stripping once |
| Webhook.WebhookHeaderIff | pegaprox/api/auto_install.py:139-139 | a line is the header of the table exactly when it is the name in brackets with white space alone around either |
| Webhook.AnyTableIff | pegaprox/api/auto_install.py:140-140 | a line opens a table exactly when a bracket is the first in it but for white space |
| WebhookReads.StripRemovesTheTable | pegaprox/api/auto_install.py:695-708 | the stripped document reads as the original minus the table, whatever its one-line values look like |
| WebhookText.StrippedTextReads | pegaprox/api/auto_install.py:695-708 | the same for whole texts whose lines all end with LF or CRLF, a condition that is enough, for every kind of value |
| WebhookComments.StripIsRightIff | pegaprox/api/auto_install.py:695-708 | for a document typed by hand, with no bracket first behind a cut, the stripped text reads as the original minus the table if and only if each cut in a line outside it is harmless: the part in front of the first cut reads, and behind each there is nothing or a comment |
| WebhookComments.CutsReadIff | pegaprox/api/auto_install.py:700-708 | lines and the pieces str.splitlines makes of them say the same under the same condition |
| WebhookComments.CommentBecomesText | pegaprox/api/auto_install.py:700-708 | a comment with U+0085, U+2028 or U+2029 in it says nothing, and after the strip nothing exactly when nothing but a comment follows that character |
| WebhookText.StripTextTwice | pegaprox/api/auto_install.py:695-708 | stripping a text twice is stripping once exactly when the last of several lines outside the webhook table is not empty |
| WebhookCuts.StrippedReadsIff | pegaprox/api/auto_install.py:695-708 | a printed file without a webhook table reads the same after the strip, or at all, if and only if no string of it holds U+0085, U+2028 or U+2029 |
| WebhookCuts.SeparatorsShow | pegaprox/api/auto_install.py:431-461 | the printed file holds one of those exactly when a string of its model does |
| WebhookRender.RenderedFileSays | pegaprox/api/auto_install.py:804-823 | the rendered file of a stored one has every other table as it was and exactly one webhook table, PegaProx's |
| WebhookRender.RenderedAddsTheTable | pegaprox/api/auto_install.py:804-823 | whatever the stripped text says, the rendered file says, with PegaProx's webhook table |
| WebhookComments.CutFileIsRendered | pegaprox/api/auto_install.py:804-823 | the rendered file of a document whose cuts are harmless has every other table as it was and exactly one webhook table |
| RenderedModel.RenderedReadsIff | pegaprox/api/auto_install.py:804-823 | the rendered text of a printed file reads if and only if no string of it holds a separator and what is written of address and fingerprint is printable, and then says what the file said with the webhook table |
| AnswerRender.RenderedFormPasses | pegaprox/api/auto_install.py:804-823 | a file the guided setup built renders to one that passes the check if and only if it holds no separator, the text fits the size limit, and address and fingerprint are printable or none is written |
| AnswerRender.SeparatorInAKey | pegaprox/api/auto_install.py:599-612 | any SSH key with a separator: the guided setup takes it, the file passes the check, and what is served of it is refused ever after |
| WebhookRender.TrimmedLinesRead | pegaprox/api/auto_install.py:809-809 | the white space cut off the end of a document says nothing |
| WebhookRender.ValuesAreTolerant | pegaprox/api/auto_install.py:119-131 | no value is read differently for white space behind it |
| ServeRuns.UsesAreServed | pegaprox/api/auto_install.py:1569-1578 | in every interleaving of fetches, edits, rotations and deletes the use counter is the number of answers served since the token was made, and within the largest limit in force since |
| ServeRuns.ServedWasAllowed | pegaprox/api/auto_install.py:1543-1578 | every answer served went to the then current token of an enabled, unexpired profile below its limit |
| ServeRuns.ClaimIffAllowed | pegaprox/api/auto_install.py:1572-1578 | a claim goes through exactly when the log says it may |
| ServeRuns.RotationRevokes | pegaprox/api/auto_install.py:1255-1277 | after a rotation no answer is ever served to the old token, whatever was in flight |
| ServeRuns.LimitIsNotOversold | pegaprox/api/auto_install.py:1569-1578 | racing fetches take no more than the uses left; of a disabled profile none |
| ServeRuns.CallbackIsLatest | pegaprox/api/auto_install.py:1581-1604 | a run's stored callback token is the one in its latest served file, and no earlier file's |
| ServeRuns.CallbacksFindOneRun | pegaprox/api/auto_install.py:934-943 | a callback token finds at most one run |
| ServeRuns.TokenNamesOneProfile | pegaprox/api/auto_install.py:920-931 | a token finds at most one profile |
| ServeRuns.InvHolds | pegaprox/api/auto_install.py:1543-1611 | the invariant over every run: rows are what the log says, one run per known machine and profile, at most 1000 runs |
| ServeRuns.AnswerIsCurrentIff | pegaprox/api/auto_install.py:1543-1567 | the file served is the profile's current one exactly when nothing touched the profile between read and claim, or the last event that did carries the answer read |
| ServeRuns.EditedAnswerIsStale | pegaprox/api/auto_install.py:1543-1567 | a run in which it was, and the file from before the edit is served |
| ServeRuns.ClaimAfterEdit | pegaprox/api/auto_install.py:1543-1578 | for every world with a fetch in flight and every edit: the claim goes by the new terms and serves what was read |
| ServeSteps.ReadIff | pegaprox/api/auto_install.py:959-974 | in every run a fetch reads its profile exactly when the terms of the last edit and the answers served since its token let it through, and takes down the answer of that edit |
| ServeSteps.ClaimIff | pegaprox/api/auto_install.py:1569-1579 | a claim goes through exactly when its token is the one in force and those let it; then one more use is counted, and no other profile changes; otherwise nothing does |
| ServeSteps.RunIsGoneIff | pegaprox/api/auto_install.py:1599-1603 | a run is gone exactly when it was cleared, its profile was deleted, or a run of its profile begun with 1000 there already, all of them as late as it or later |
| ServeSteps.RunIsChangedIff | pegaprox/api/auto_install.py:1588-1594 | no step changes a run but the claim that takes it for its machine |
| ServeAnswer.QueriesHaveAnswers | pegaprox/api/auto_install.py:1581-1603 | the queries of a claim always have an answer |
| ServeAnswer.NewRunIsKept | pegaprox/api/auto_install.py:1600-1603 | a new run that is the latest outlives the pruning that comes with it |
| ServeInPlace.Tables.constructor | pegaprox/api/auto_install.py:1199-1208 | empty tables |
| ServeInPlace.Tables.CreateProfile | pegaprox/api/auto_install.py:1194-1209 | a profile row, with no use counted |
| ServeInPlace.Tables.UpdateProfile | pegaprox/api/auto_install.py:1235-1243 | an edit leaves token and uses alone |
| ServeInPlace.Tables.RotateToken | pegaprox/api/auto_install.py:1266-1273 | a new token, and the counter at 0 |
| ServeInPlace.Tables.DeleteProfile | pegaprox/api/auto_install.py:1286-1295 | the profile goes with its runs |
| ServeInPlace.Tables.Read | pegaprox/api/auto_install.py:959-974 | the first half of a fetch: the checks on the row it read |
| ServeInPlace.Tables.Claim | pegaprox/api/auto_install.py:1569-1604 | the guarded claim and the run row, or nothing |
| ChangesRuns.ApprovedAsRead | pegaprox/api/changes.py:503-530 | an approved plan asks for what its approver read; the approver is another person than the requester, and one who is no administrator approved guests of their own |
| ChangesRuns.FrozenFromSubmit | pegaprox/api/changes.py:474-500 | title, description, scope and window are frozen from the submit on, and the window is the one that submit checked |
| ChangesRuns.WindowsAreOrdered | pegaprox/api/changes.py:310-328 | a stored window with both ends set ends after it starts |
| ChangesRuns.NothingUnsubmitted | pegaprox/api/changes.py:474-500 | every plan submitted, decided on or done went through its requester's submit with a good window |
| ChangesRuns.DecidedOnce | pegaprox/api/changes.py:403-414 | no plan is both approved and rejected, and each decision is taken once, whoever races |
| ChangesRuns.InvHolds | pegaprox/api/changes.py:331-595 | the invariant over every interleaving of handlers between their read and their write |
| Changes.NoWayBack | pegaprox/core/changes.py:26-30 | the transition table: a draft is no target, a plan that is over no source of a move |
| ChangesRuns.SecondEditRestores | pegaprox/api/changes.py:449-462 | of two edits in flight that each name one end the second puts back the other end as both had read it |
| ChangesRuns.ScopeWasReached | pegaprox/api/changes.py:442-448 | in every reachable state the scope of a plan was given to it by its requester, in a creation or edit whose caller could reach that scope |
| ChangesRuns.SubmitMissesTheScope | pegaprox/api/changes.py:486-492 | what the submit judged may be another scope: for every draft and edit of its scope a run in which the edit comes between the read and the move |
| ChangesSteps.CreatedIff | pegaprox/api/changes.py:331-375 | who creates a plan of what exactly, and what the draft holds |
| ChangesSteps.EditedIff | pegaprox/api/changes.py:419-468 | who edits it, when and with what exactly, and every column as it is then |
| ChangesSteps.SubmittedIff | pegaprox/api/changes.py:474-500 | a draft is submitted exactly by its requester who still reaches its scope, with a window of both ends, up to 30 days long, starting no earlier than five minutes ago, that is still the one read |
| ChangesSteps.ApprovedIff | pegaprox/api/changes.py:503-535 | approved exactly by another person who sees it and may decide on it, before its window is over |
| ChangesSteps.RejectedIff | pegaprox/api/changes.py:538-559 | rejected exactly by such a one, with a reason of up to 500 characters |
| ChangesSteps.ClosedIff | pegaprox/api/changes.py:562-582 | cancelled or marked done exactly by one who sees it and is its requester with changes.request, or may decide on it, from a status that allows it, as read and as it is |
| ChangesSteps.ActionWrites | pegaprox/api/changes.py:403-414 | an action that goes through writes the status and who decided and nothing else; one that does not, nothing |
| ChangesSteps.ClosedByEntitled | pegaprox/api/changes.py:562-582 | over every run, each cancel and each done was by a caller who saw the plan, and was its requester with changes.request, or had changes.approve, reached the cluster and was an administrator or decided on guests of their own |
| ChangesSteps.EveryWriteWasAllowed | pegaprox/api/changes.py:331-595 | over every run, each write of the log was allowed by those conditions and made of what the last write to its plan had left, and each plan is what its last write left |
| ChangesInPlace.PlanTable.constructor | pegaprox/api/changes.py:84-90 | an empty table |
| ChangesInPlace.PlanTable.CreateChange | pegaprox/api/changes.py:333-375 | a draft of the caller, or nothing |
| ChangesInPlace.PlanTable.EditChange | pegaprox/api/changes.py:419-468 | the columns of the body, written while the plan is a draft |
| ChangesInPlace.PlanTable.Move | pegaprox/api/changes.py:403-414 | the compare-and-set on status and, for a submit, the window |
| ChangesInPlace.PlanTable.Act | pegaprox/api/changes.py:474-582 | submit, approve, reject, cancel and done: what each asks, then the compare-and-set |
| CostsOnColumns.EnginesAgree | pegaprox/api/costs.py:165-186 | over columns of any stored window the column engine gives the same guests in the same first-seen order with the same kind, counts, maxima and averages as the row loop |
| CostsOnColumns.StoredWindowAgrees | pegaprox/api/costs.py:122-186 | the same from the dicts the collector wrote, through their storing |
| CostsOnColumns.CpusAre | pegaprox/api/costs.py:175-184 | the figures summed are the same numbers in the same order |
| CostsOnColumns.MemsAre | pegaprox/api/costs.py:175-185 | the same for memory |
| CostsOnColumns.MaximaAgree | pegaprox/api/costs.py:182-183 | the largest over the rosters is the largest over the samples |
| CostsOnColumns.KindsAgree | pegaprox/api/costs.py:180-180 | the kind is that of the first snapshot the guest is in |
| Costs.CostStats | pegaprox/api/costs.py:133-161 | the nested loops give each guest what its samples say, by the first sample of each |
| Costs.SeenHaveSamples | pegaprox/api/costs.py:137-143 | the guests reported are exactly those with a sample |
| CostsReport.ReportSays | pegaprox/api/costs.py:133-161 | what is reported of a guest, over the snapshots and not the loop: how many have it and how many running, the largest sizes, the kind in the first, and averages that times their number are the sums |
| Metrics.StoredComesBack | pegaprox/background/metrics_store.py:155-294 | what was stored reads back as the very dict, and a dict is stored exactly when every entry is in shape |
| Metrics.TenthsComeBack | pegaprox/background/metrics_store.py:134-152 | a stored tenth gives the very figure back |
| Metrics.TenthsAreKept | pegaprox/background/metrics_store.py:134-152 | every stored tenth is kept by storing its figure again |
| ColumnsSpliced.PlanOf | pegaprox/background/metrics_store.py:923-940 | the plan of runs and holes lays the entries of a roster out at their places; none is made when all guests are there |
| ColumnsSpliced.LaidIsSpread | pegaprox/background/metrics_store.py:943-948 | any column laid out along the plan is the column spread entry by entry |
| Columns.SpreadIs | pegaprox/background/metrics_store.py:923-948 | a roster's entries stand at their guests' places, with holes for the others |
| Columns.StrideIsColumn | pegaprox/background/metrics_store.py:885-905 | a strided slice of a flat column is one guest's column |
| Columns.UnionIs | pegaprox/background/metrics_store.py:978-989 | the guests of a window, ascending, are those of its rosters |
| ColumnsInPlace.OrderOf | pegaprox/background/metrics_store.py:1033-1053 | the loop with its shortcuts finds the guests in the order the dicts fill in |
| PluginSource.EveryFileArrives | packaging/plugins/sync_plugins.py:100-123 | of a source that lists no name twice in a directory, every shipped regular file of a plugin that went in is in the target with its content, for owner and group to read or, the settings, for the owner alone, but for settings that were there, which are as they were; it is missing exactly when a file listed behind it, or behind a folder on its way, is copied under that name |
| PluginSource.NothingElseChanges | packaging/plugins/sync_plugins.py:144-190 | what no plugin ships is as it was at every depth, whichever plugins fail |
| PluginSource.PluginStandsAlone | packaging/plugins/sync_plugins.py:168-186 | what becomes of a plugin depends on itself and its own folder alone |
| PluginSource.PluginGoesIn | packaging/plugins/sync_plugins.py:168-186 | of such a source, a plugin goes in exactly when nothing is in its way, and its folder then holds what should be there |
| PluginSource.OnlyPluginsGoIn | packaging/plugins/sync_plugins.py:168-171 | what is no folder, or is named with a dot or an underscore first, changes nothing under its name and is no failure |
| PluginSource.SyncTwice | packaging/plugins/sync_plugins.py:144-190 | of a source that ships no temporary name of another entry: syncing twice is syncing once, with the same failures |
| PluginTwice.SyncTwiceIff | packaging/plugins/sync_plugins.py:144-190 | of a source that lists no name twice in a directory, once every plugin went in: a second sync succeeds and changes nothing if and only if in no plugin a file copied each time comes before a folder of its temporary name, or a file of that of the settings before settings that were new |
| PluginTwice.OnceIsEnoughIff | packaging/plugins/sync_plugins.py:100-123 | the same inside one plugin, and which of the two it is that stops the second sync |
| PluginTwice.GoesInOnce | packaging/plugins/sync_plugins.py:76-123 | a plugin that goes in the first time and not the second |
| PluginSource.ShippedTemporaryIsLost | packaging/plugins/sync_plugins.py:76-97 | in a sync that reports no failure a shipped file holds its content if and only if no file listed behind it is copied under its name; otherwise it is gone |
| PluginSource.SyncPlugins | packaging/plugins/sync_plugins.py:144-190 | the loop over the plugins and its list of failures; nothing at all where source and target are one directory |
| PluginMerge.SyncedIsMerged | packaging/plugins/sync_plugins.py:100-123 | the entries one by one, for listings without a name twice: success exactly when nothing clashes, and then name by name the tree that should be there |
| PluginRuns.ForeignStays | packaging/plugins/sync_plugins.py:100-123 | inside one plugin, what is not shipped is untouched even when the sync stops half way |
| PluginRuns.MergedHasFile | packaging/plugins/sync_plugins.py:100-123 | each shipped path of the tree that should be there, and which are missing |
| PluginRuns.ShipsIff | packaging/plugins/sync_plugins.py:105-118 | of a folder go in exactly the regular files that are no compiled code and the folders that are not its cache |
| PluginRuns.NothingIsFollowed | packaging/plugins/sync_plugins.py:57-73 | a link or anything else where a folder belongs stops the sync and stays, unless a file ahead is copied under that very name |
| PluginRuns.TwiceIsOnce | packaging/plugins/sync_plugins.py:100-123 | inside one plugin that ships no temporary name of another entry, twice is once, also when it fails |
| PluginSync.CopyFile | packaging/plugins/sync_plugins.py:76-97 | a new file under the temporary name, which takes the place of the name, or nothing but the temporary name gone |
| PluginSync.SyncTree | packaging/plugins/sync_plugins.py:100-123 | the recursive loop over the sorted entries |
| LoginAttempts.SweepIsInvisibleIff | pegaprox/api/auth.py:873-881 | every lock and limit decision of every run is that of a table that never drops an entry if and only if the attempt window, as it is set over time, always has the five minutes of the password check and never reaches back behind what it cut off before |
| LoginAttempts.RunsAreAlike | pegaprox/api/auth.py:134-143 | from any two tables that are alike within the horizons, the same decisions under any such windows |
| LoginAttempts.ShortWindowShows | pegaprox/api/auth.py:1723-1731 | with a window that is shorter at some time, a run in which the sweep lets a password check through |
| LoginAttempts.GrowingWindowShows | pegaprox/api/auth.py:870-894 | with a window that is set to reach further back, a run in which a failure that was forgotten would have locked |
| LoginAttempts.FixedWindowIff | pegaprox/api/auth.py:873-881 | with one window for the run: exactly when it is at least five minutes |
| LoginAttempts.SweepIsAlike | pegaprox/api/auth.py:876-881 | the sweep drops nothing that counts |
| LoginHistory.CheckIsLockedIff | pegaprox/api/auth.py:806-866 | over every run from empty dicts, a lock check answers locked exactly when the last failure that locked the address or the user, the one with too many failures in its window that nothing cleared since, is less than its lockout ago, and names that end; else open - with a window that is never set to reach back behind what it cut off |
| LoginHistory.SteadyLockoutHolds | pegaprox/api/auth.py:884-903 | with one lockout time: locked exactly while any failure that locked, and was not cleared since, is less than that long ago, with such a window |
| LoginHistory.FailureLocksIff | pegaprox/api/auth.py:884-908 | a failed login says it locked exactly when it is the max-th of its address or the twice max-th of its user within the window, nothing cleared between, with such a window |
| LoginHistory.FailuresAreToldIff | pegaprox/api/auth.py:873-908 | that holds of every run exactly when the window, as it is set over time, never reaches back behind what it cut off before |
| LoginHistory.LimitedIff | pegaprox/api/auth.py:134-143 | a callback is turned away exactly with 10 let through in the minute before it, a password check with 5 in the five minutes before, and none cleared since, with an attempt window of at least that length |
| AttemptsInPlace.Attempts.constructor | pegaprox/api/auth.py:870-881 | empty dicts |
| AttemptsInPlace.Attempts.CheckIp | pegaprox/api/auth.py:806-824 | the lock of an address, and its old attempts dropped |
| AttemptsInPlace.Attempts.CheckUser | pegaprox/api/auth.py:850-866 | the lock of a user name |
| AttemptsInPlace.Attempts.Sweep | pegaprox/api/auth.py:876-881 | the stale entries popped one by one |
| AttemptsInPlace.Attempts.Track | pegaprox/api/auth.py:884-894 | one attempt more, and the lock when it is one too many |
| AttemptsInPlace.Attempts.RecordFailedAttempt | pegaprox/api/auth.py:868-908 | the sweep, then the attempt under the address and the user name |
| AttemptsInPlace.Attempts.ClearBoth | pegaprox/api/auth.py:1119-1123 | a sign-in clears both entries |
| AttemptsInPlace.Attempts.OidcCallback | pegaprox/api/auth.py:134-143 | the limiter of the callback |
| AttemptsInPlace.Attempts.PasswordCheck | pegaprox/api/auth.py:1723-1731 | the limiter of the password check |

## Left out

- The voting protocol and its signatures (`pegaprox/core/ha_vote.py`, `pegaprox/core/ha_wire.py`): a signature check is a result the model is given.
- `check_bundle`, the update log, drop of root, restarts of the service, timeouts and TLS: a start ends in one of the ways the steps name, a chunk arrives or the peer closes.
- The update gate and the switch are one step: an update command racing a start of the service is not modelled, and links and files are written whole or the step does not happen (only health.json may fail to be written).
- ReleasesSort: written releases whose numbers have up to nine digits, of which at most six count; KeysAreOrdered and its kind are about every text.
- HealthyIsRemembered: from the first time a tree comes up; ComingUpAgainRenewsNothing is why.
- The base lies outside the updates directory, an unpacked tree holds the code of its digest, and a manifest names the release and wire version of the code in its archive.
- Greenlets are not modelled: a dropped connection may go on for any number of steps, and how many of them the kill lets it take is open.
- build_answer and validate_answer are modelled as functions on values: filling their dicts step by step, the order of the messages and the warnings are not captured.
- BuilderAgreesWithCheck: the check is modelled for files of strings and lists of strings, as the builder writes; patterns only a regular expression or the address library decides are parameters, in both.
- PassesIff: what the check looks up is what is demanded; the warnings it adds beside the errors are not.
- TOML arrays of tables, inline tables, multi-line strings and values over several lines are not read by the model; the reader refuses them.
- PrinterAndReaderAgree: strings are of Unicode scalar values, as a string literal of TOML can hold no surrogate.
- RenderedFileSays: stored documents whose values sit on one line, with LF or CRLF line ends, no table inside the webhook's, and an address without control characters; CutFileIsRendered needs harmless cuts instead of the line ends, RenderedFormPasses none of that for what the guided setup built.
- StrippedTextReads: plain line ends are enough, not necessary, for whatever kind of value; StripIsRightIff is exact for the values of stored documents.
- StripIsRightIff: documents in which what follows a cut begins with no bracket; a bracket there opens a table, or ends the webhook's.
- ServeAnswer: token hashes stand for their tokens, new tokens and ids are new, and what the machine reported of itself besides its fingerprint is not kept; the progress endpoint and the redaction of answers are not modelled.
- ChangesRuns: what permission, cluster and guest lookups answer is given with each step; listing and viewing plans, audit entries, time stamps, the stored reason of a rejection and drift links are left out; times are whole seconds, and a year before 1000, which prints with fewer digits, is not covered.
- EnginesAgree: averages are over exact reals, and CpusAre and MemsAre say that the sums are over the same numbers in the same order; the host columns, the power model and the right-sizing report, which read the same columns, are left out, and so are rates and rounding.
- Metrics: the parts are sequences rather than packed bytes, and a negative zero is not told from zero.
- PluginSync: directories are values, so file descriptors, a target that changes meanwhile, hard links and owners are not captured; a write the disk refuses is a parameter by path.
- SyncTwice: for sources that list each name once and ship no temporary names of others; SyncTwiceIff needs only the first of these, and that every plugin went in.
- LoginAttempts: one clock reading for each step, and times never go back; retry times follow from the lock, the listing of locked addresses is not modelled.
- The web routes, permissions, redirects and the rest of the application: forwarding and finite case splits.
