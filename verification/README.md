# Verified models of the repository's tools

This project models, in Dafny, the parts of the Python tools whose correctness rests on an invariant over a whole
run, and proves what those parts are for.

- **SELF unwrapping** (`ElfFormat`, `ElfReading`, `SegmentPlacement`, `SegmentPlaces`, `Alignment`, `OutputPlan`,
  `OutputLayout`, `OutputRegions`, `UnwrapSelf`, `UnwrapOutcome`, `EmptiedTable`). A decrypted container is read, its program segments are matched to records or hosts, the stretches
  of the container that move together collect the alignment demands of their segments, are laid out, copied, and the
  ELF header and its table are rewritten. Every accepted container gives a file whose loads, and whose other segments
  with bytes, obey the alignment rule of the System V ABI (gABI chapter 5, "Program Header", `p_align`), in which
  segments keep their bytes and hosted segments keep their distances. A container that can be read has one layout, told
  from its segments alone, and is accepted exactly when that layout fits.
- **Migration of a change across a file split** (`Lists`, `DebtFiles`, `ReplayState`, `ReplayBalance`, `DebtReplay`,
  `DebtOriginals`, `DebtExchange`, `DebtSplit`, `DebtText`, `DebtReading`, `DebtWriting`, `DebtPreamble`, `DebtDisk`,
  `DebtIndex`, `DebtShapes`). An
  edit script of the debt index, any valid list of opcodes, is replayed on the files the index was split into, on
  entries with identity. Whatever the files hold, the changed old texts go, the changed new ones come, and all others
  stay in their order. Splitting and then replaying is splitting the changed index, both on entries and on the files
  themselves, which are read, changed and written back as lines, and what the split leaves in the index reads back.
- **Trace digest** (`PersistentPeaks`, `TraceAccounting`). A union-find sweep finds the persistence of every point of a
  frame-time series; a stack pass and a covering sweep account for the time of a thread.
- **Treemaps** (`Squarify`, `TreemapCells`). The greedy tiling of a box, over exact reals.
- **Preprocessor variants** (`BranchVariants`, `ConditionalInclusion`, `TrimmedInclusion`). The tree of a body, the
  odometer that enumerates it, and the text that conditional inclusion keeps (section 6.10.1 of ISO/IEC 9899:2018).
- **Addresses and symbol counts** (`FileBacking`, `GnuSymbols`, `SymbolWords`, `UnusedBucket`, `MovedBucket`). Two sweeps that find
  where the file has the bytes of an address range, and two ways of counting the symbols of a GNU hash table.
- **PE images** (`PeImage`). Reading bytes and strings of a mapped image in chunks.
- **CMake lists** (`CommandTree`, `CMakeFragments`, `CMakeResidual`, `CMakeShells`, `CMakePlaces`,
  `CMakeSplit`). A list of commands as
  a tree, its split into fragments and a residual list, what running each of them reaches, and where each command goes.
- **Test selection** (`TestSelection`), **A/B logs** (`AbLog`), **pad timelines** (`PadTimeline`).

Shared parts are `Options`, `Sorting` (Python's stable `sorted`) and `ElfSample` (an ELF header for the examples).

Loops over changing state are methods on arrays, lists and objects, each proved against a specification; what the
specification means is proved in lemmas beside it. What the main operations give is also said of the input itself,
byte by byte, line by line or node by node, without the functions they compute with. Times are integers or exact reals.

## Findings

Five properties one would expect do not hold of the code. Each has an input on which it fails and the exact condition
under which it holds.

- *The unwrapped file parses as an ELF file again.* A trailing PT_PHDR that would run past the end of the container is
  left without bytes (`tools/unwrap_self.py:181-191`), is still accepted when a load at the start of the container
  hosts it (lines 213-222 and 299-305), and its table is then written to offset 0, over the header (lines 389-400).
  `EmptiedTable.PhdrCanBeCutShort` gives a container of 1024 bytes that is read to this end, and
  `EmptiedTable.UnwrapWitness` shows that it is accepted and that its output does not parse. The output parses again,
  to the emitted table, exactly when PT_PHDR is not cut off (`UnwrapOutcome.Unwrap`, with the condition
  `UnwrapSelf.PhdrCutOff` on headers, records and file length, see `SegmentPlacement.EmptiedIffCutOff`).
- *Waited time is part of traced time.* A wait that starts inside a slice and outlasts it counts as waited but, below
  depth 0, not as traced, and the busy time turns negative (`tools/trace_digest.py:303-316`).
  `TraceAccounting.WaitedCanExceedTraced` has 15 units waited in 10 traced. The waited time lies inside the traced time
  exactly when no outermost wait outlasts its root inside the window, and otherwise the busy time is off by exactly
  what does not (`TraceAccounting.WaitsInsideTraced`).
- *Every enumerated variant is kept by some choice of conditions.* A branch after an `#else` is enumerated
  (`tools/import_audit.py:580-582`) and never kept; `ConditionalInclusion.AfterElseIsNotKept` shows one. A text is kept
  under some truth values exactly when it is enumerated of the body without those branches
  (`TrimmedInclusion.KeptIffEnumeratedTrimmed`); without such a branch, that is every enumerated text
  (`ConditionalInclusion.VariantsAreKept`). A branch after an `#else` need not add a text, since it may repeat one, so
  `#else` being last is not necessary for the two sets to be equal.
- *Both tools count the same symbols.* It fails in two ways. For a table that hashes from symbol 0 on and uses no
  bucket, the walk along all chains counts none, while the single walk still follows chain 0
  (`tools/annotate_module.py:148-153`, `tools/import_audit.py:143-159`; the ELF file of
  `UnusedBucket.CountsCanDiffer`). And one tool resolves every bucket by its address (`tools/annotate_module.py:148`)
  while the other reads the buckets on from the header (`tools/import_audit.py:139-140`); where two loads have an address
  at two distances, which neither tool refuses, these are different words (the ELF file of
  `MovedBucket.BucketsCanDiffer`: two symbols against three). For any loads, where the audit gives a count, the other
  tool gives the same exactly when the greatest bucket that each of them sees leads to the same end of a chain, or
  neither follows one (`GnuSymbols.CountsAgreeWhen`). When no address is backed at two distances, that is in all cases
  but the first of the two above (`GnuSymbols.CountsAgree`).
- *Replaying a change gives the files that splitting the changed index would.* The replay on entries does
  (`DebtSplit.SplitThenApply`). On files that hold nothing before the split it does exactly when all that is filed of the changed index reads back once
  it is written (`DebtDisk.SplitThenApplyOnDisk`), which, with a relinking that leaves entries entries, is when no
  entry with a component stands above its first section (`DebtShapes.FileableUnlessAbove`). The split refuses such an
  index (`tools/debt_split.py:230-232`), the replay does not, and files the entry under `### None` (lines 288-298 and
  146); `DebtShapes.AboveIsNotFileable` has a change that moves one entry and nothing else.

One more property holds only of what the tools write themselves: rewriting a debt file keeps what was read from it
exactly when no entry of the new text is followed by an indented line, which can happen when a heading of another
level stood between them and was dropped (`tools/debt_split.py:155-160`; `DebtText.RewritingKeeps`, with the file of
`DebtText.RewritingCanLose`). The same holds of what stands above its sections, where a title is dropped
(`tools/debt_split.py:171-172`; `DebtPreamble.PreambleReadsBack`, with the file of `DebtPreamble.PreambleCanChange`). A
section without a title is written as `### None` (line 146), so that it reads back
under that title; it is one of the sections `DebtText.ReadsBackIffWritable` excludes.

## Model

| member | source | states |
|---|---|---|
| UnwrapOutcome.Unwrap | tools/unwrap_self.py:280-421 | For every container: it is accepted exactly when it can be read and its only layout fits, and refused for exactly one stated reason otherwise, where reading, placing and laying out are said of the container's own bytes and headers. Of an accepted one: every byte of the file comes from the header, from the table or from the stretch that lies there, and what is between is zero; it parses as ELF again exactly when PT_PHDR is not cut off by the end of the container; never does a segment with bytes escape the output. |
| UnwrapOutcome.ReadIs | tools/unwrap_self.py:280-306 | What is read of a container, and each reason for not reading it, in the order of the checks, told from its bytes. |
| UnwrapOutcome.FileIsWritten | tools/unwrap_self.py:353-400 | A file that follows the plan has, at every position, the byte that the header, the emitted table or the stretch laid there gives it. |
| OutputLayout.MakersBySource | tools/unwrap_self.py:308-330 | The stretches are made by the loads with bytes, and by each other segment with bytes that neither such a load nor an earlier one of its own kind holds; they are ordered by where they start in the container, loads first. |
| OutputLayout.OnePlan | tools/unwrap_self.py:308-361 | Two plans of the same segments, each stretch at the least offset after the one before it that suits all its segments, have the same stretches, starts and end. |
| UnwrapSelf.LayoutKeepsPromises | tools/unwrap_self.py:353-400 | Every PT_LOAD, empty ones included, and every other segment with bytes has an offset congruent to its address modulo its alignment; the copied stretches are disjoint, in order and past the header area and the original table; every segment reads back its source bytes except where the table now lies; hosted segments keep their distance; the table in the file is the emitted one. |
| UnwrapSelf.EmittedFollowsElfRule | tools/unwrap_self.py:337-387 | The offset written for any load, and for any segment with bytes, obeys the alignment rule, whatever order the region's demands were raised in. |
| UnwrapSelf.SegmentMoves | tools/unwrap_self.py:379-387 | A segment with bytes moves with one stretch that contains it, and ends up inside the output, past the start of the layout. |
| UnwrapSelf.HostedKeepsDistance | tools/unwrap_self.py:332-335 | A hosted segment's new offset differs from its host's by exactly the difference of their addresses. |
| UnwrapSelf.OutputParsesAgain | tools/unwrap_self.py:389-400 | The written file parses to the emitted table exactly when PT_PHDR kept its bytes. |
| UnwrapSelf.EmptiedIsCutOff | tools/unwrap_self.py:181-191 | PT_PHDR ends up without bytes exactly when the container ends before it would, as told from headers, records and length. |
| UnwrapSelf.ReadContainer | tools/unwrap_self.py:280-306 | Reads and places in the source's order of checks, the in-place placement and the refusals included; agrees with a functional reading on every byte string. |
| UnwrapSelf.PhdrIsOnly | tools/unwrap_self.py:289-297 | An accepted table has at most one PT_PHDR, and it covers the table. |
| UnwrapSelf.CopyStretches | tools/unwrap_self.py:376-378 | After copying, every stretch of the file is the stretch of the container it came from, none overwritten by a later one. |
| UnwrapSelf.TableHolds | tools/unwrap_self.py:396-400 | After all entries are written one after the other, each is still where it was written. |
| UnwrapSelf.WriteOut | tools/unwrap_self.py:308-400 | From usable segments to the file of the only layout, with the promises; or the reason: the first segment with which a stretch has no start left, or what is the matter with that layout: too much padding, too large, the first segment that escapes, which has neither bytes nor host, or an offset past 64 bits. |
| UnwrapSelf.OneLayout | tools/unwrap_self.py:353-387 | Any two layouts that give each stretch the least start from the one before it on that suits its segments put everything at the same place, so padding, length and all offsets are determined by the segments. |
| UnwrapSelf.OneOutcome | tools/unwrap_self.py:308-415 | A container that was read is accepted, or refused for one reason; no two of these hold of it. |
| OutputPlan.MakersAre | tools/unwrap_self.py:308-330 | The stretches: one for each load with bytes and as many more as it takes to hold every segment with bytes, none twice, in the order of the container. |
| EmptiedTable.PhdrCanBeCutShort | tools/unwrap_self.py:174-191 | A concrete container is read without refusal although its PT_PHDR is left without bytes. |
| EmptiedTable.UnwrapWitness | tools/unwrap_self.py:280-400 | That container is accepted, its output keeps all promises, and does not parse. |
| OutputRegions.CollectRegions | tools/unwrap_self.py:308-330 | Every load with bytes has its own region and every other segment with bytes lies in some region; regions are distinct, inside the container, sorted, those of the makers one by one, and each starts with the demand of the segment it was made for. |
| OutputRegions.CollectDemands | tools/unwrap_self.py:337-351 | Afterwards each region wants exactly the starts that suit its first demand and every segment placed with it; it refuses at the first segment with which some region has no such start left, and then two segments inside the bytes of a third cannot both be served by any start. |
| OutputRegions.BalancedByTaking | tools/unwrap_self.py:345-351 | Raising a region's demand for one more segment keeps exactly the starts that suit all segments so far. |
| OutputRegions.LayOut | tools/unwrap_self.py:355-361 | Each stretch starts at the first wanted offset after the one before it; the padding reported is the output minus the bytes. |
| OutputRegions.LaidInOrder | tools/unwrap_self.py:355-361 | Stretches follow one another without overlap, each at an offset it wants. |
| OutputRegions.LaidIsTightest | tools/unwrap_self.py:355-361 | No layout in the same order could start any stretch earlier. |
| Alignment.TakeIsExact | tools/unwrap_self.py:343-351 | Taking in a demand gives one that is met by precisely the offsets that meet both, and a clash means no offset meets both. |
| Alignment.SmallerPowerDivides | tools/unwrap_self.py:142-143 | A smaller power of two divides a greater one, which the accepted alignments are. |
| Alignment.NextIsLeast | tools/unwrap_self.py:357-358 | The padded offset is the least one from the cursor on that meets the demand. |
| Alignment.MeetsIsTheElfRule | tools/unwrap_self.py:142-143 | Meeting a demand is offset and address agreeing modulo the alignment. |
| SegmentPlacement.PlaceSegments | tools/unwrap_self.py:161-255 | The passes on the header array, in place and in order, give what the functional passes give, refusals included. |
| SegmentPlacement.NoRecordFeedsTwo | tools/unwrap_self.py:168-200 | Every time a record is used for a segment is kept as one feeding. After a successful placement two feedings with the same record, or with the same segment, are one and the same, and every fed segment has its record's place and size in the output. |
| SegmentPlacement.RecordPassSettles | tools/unwrap_self.py:168-173 | After the first pass the settled segments are the fed ones, and every record that names a segment of its size has settled it. |
| SegmentPlacement.UnfedLoadFindsNone | tools/unwrap_self.py:192-200 | A load with bytes stays without a record only when every record of its size is used. |
| SegmentPlacement.PlacementIsSound | tools/unwrap_self.py:211-255 | Headers keep their identity, every segment lies inside the container, and a hosted segment agrees with its host in distance and fits the host's bytes. |
| SegmentPlacement.SizesStayOrGo | tools/unwrap_self.py:181-233 | A load keeps its size; a segment mapped by address keeps its size or loses all its bytes; memory sizes stay. |
| SegmentPlacement.EmptiedIffCutOff | tools/unwrap_self.py:174-233 | A segment mapped by address loses its bytes exactly when it trails the last recorded segment and would run past the end of the container. |
| SegmentPlaces.PlacementIs | tools/unwrap_self.py:161-255 | Of any headers and records: the first record that names a header of its size settles it; the last of the settled unaddressed headers, by offset and of equal ones the first, is followed, from its end in the output on, by the unsettled unaddressed ones with bytes and a greater offset, in the order of the ELF, each past the sizes of the non-notes before it; a load takes the first free record of its size; an addressed segment lies in the last load whose memory has its address, and what is left keeps its distance to the furthest placed one. Otherwise the refusal is that of the first segment that fits nowhere. |
| SegmentPlaces.OnePlacement | tools/unwrap_self.py:161-255 | Those conditions determine every segment's place and the record that each takes. |
| SegmentPlacement.KeptTrailingIsPrefix | tools/unwrap_self.py:181-191 | Among trailing segments that are not notes, those that keep their bytes come first. |
| SegmentPlacement.SettledStays | tools/unwrap_self.py:192-249 | What the records and the trailing pass settled is not moved by the later passes. |
| ElfFormat.ReadRecords | tools/unwrap_self.py:87-101 | The records up to the first implausible one, for every byte string. |
| ElfReading.RecordsAreRead | tools/unwrap_self.py:87-101 | The records are those from 0x40 on, 0x20 bytes each, field by field, up to the thirtieth or the first that is not plausible. |
| ElfFormat.ParseElf | tools/unwrap_self.py:104-158 | The first ELF header, its table and every refusal, in the source's order. |
| ElfReading.ParsedIs | tools/unwrap_self.py:102-158 | The header and table that are read are those of the first magic in the file, field by field, with every check passed; or the refusal is that of the first check that fails. |
| ElfFormat.EntryRoundTrip | tools/unwrap_self.py:396-400 | A program header that is written reads back. |
| ElfFormat.FieldRoundTrip | tools/unwrap_self.py:393-398 | A number packed into k little-endian bytes reads back, as far as k bytes can hold it. |
| DebtSplit.SplitThenApply | tools/debt_split.py:197-206 | On entries: splitting the old index and replaying any valid edit script to the new one succeeds and leaves the texts of the split of the new index, duplicates included. |
| DebtSplit.ApplyChange | tools/debt_split.py:248-323 | On the texts the files hold: fails exactly when a changed stretch has an old entry its file holds too few copies of. Otherwise, in any files, the texts of the changed old entries go, those of the changed new ones come, and all others stay in their order; when files hold the old entries in order among others, each touched file ends up with exactly the new entries in order, the others keep their order between them; untouched files stay. |
| DebtExchange.ReplayExchanges | tools/debt_split.py:300-323 | Of any file, as it was loaded and as it is after any steps of a replay: both have the same texts in the same order, but for the texts of the changed old entries in the one and those of the changed new ones in the other. |
| DebtExchange.ExchangedCounts | tools/debt_split.py:300-323 | So, as multisets, the new file and what went are the old file and what came. |
| DebtSplit.AppendedBalance | tools/debt_split.py:248-323 | A file that held texts of its own and what was filed of the old index ends up with those texts and what is filed of the new index, as a multiset. |
| DebtSplit.SquareCommutes | tools/debt_split.py:248-326 | What ApplyChange promises, on files that are the split of the old index, is the split of the new one. |
| DebtSplit.SplitCanReplay | tools/debt_split.py:270-277 | On files that are the split of the old index nothing is missing, so no LookupError is possible. |
| DebtSplit.UntouchedIsTheSame | tools/debt_split.py:268-269 | A component without a changed stretch has the same filed entries before and after. |
| DebtSplit.Split | tools/debt_split.py:193-206 | Every item goes either to the index or to the end of its section in its component's file; the order is that of the headings. |
| DebtOriginals.FindOriginals | tools/debt_split.py:270-277 | The n-th entry of the old index with a text gets the n-th entry object of its file with that text, or none. |
| DebtReplay.Replay.Run | tools/debt_split.py:300-323 | Over the whole script: fails exactly when a changed stretch lacks an original, and keeps the files in step with the processed parts of both indexes. |
| DebtReplay.Replay.Position | tools/debt_split.py:287-298 | An insertion point is at the front without an anchor, right after a present anchor, and at the end otherwise. |
| DebtReplay.Replay.Anchor | tools/debt_split.py:320-322 | The anchor is the nearest earlier new entry of the same component and section. |
| ReplayState.EqualStep | tools/debt_split.py:301-303 | Handing an equal stretch over keeps every file in step. |
| ReplayState.DropStep | tools/debt_split.py:313-316 | Deleting an old entry keeps every file in step with what is left of the old index. |
| ReplayState.RewriteStep | tools/debt_split.py:306-312 | Rewriting a pair in place keeps every file in step. |
| ReplayState.InsertStep | tools/debt_split.py:317-323 | Inserting after the anchor keeps every file in step, with the later entries of the stretch still to come. |
| ReplayState.InsertPoint | tools/debt_split.py:287-298 | The insertion point separates the processed entries before the new one from all that come after it. |
| DebtText.Parse | tools/debt_split.py:16-39 | The line loop, with its pending blank lines and the entry that can go on, gives what reading line by line gives. |
| DebtReading.ParsedIs | tools/debt_split.py:16-39 | Each item is a run of lines that do not overlap, under the last third-level heading before it: a heading, another text, or an entry, which goes on over indented and blank lines as far as an indented line lets it; no other line that is not blank is left out. |
| DebtText.ReadDebt | tools/debt_split.py:150-161 | The sections of a file, for any lines. |
| DebtReading.SectionIs | tools/debt_split.py:150-161 | A section that is read has exactly the items under its heading, in order. |
| DebtWriting.FileIs | tools/debt_split.py:141-147 | A written file is its title, each text of the preamble, and each section under its heading with its texts one below the other, a blank line after each of these. |
| DebtText.ReadsBackIffWritable | tools/debt_split.py:141-161 | Written sections read back as they were exactly when every section has a clean title and its texts have the shape of items, none swallowed by the entry before it. |
| DebtText.WhatIsReadIsShaped | tools/debt_split.py:16-39 | Whatever is read from any file has clean titles and shaped texts. |
| DebtText.WriteDebt | tools/debt_split.py:182-190 | Writes the sections with texts, each once, in the order of the index and, where the index does not have them, last and as they were given; or removes the file when nothing is left. |
| DebtText.RewritingKeeps | tools/debt_split.py:150-190 | Writing what was read keeps it exactly when no entry is now followed by an indented text. |
| DebtText.RewritingCanLose | tools/debt_split.py:155-160 | A file whose rewriting moves a line into the entry before it. |
| DebtPreamble.ReadPreamble | tools/debt_split.py:164-174 | The texts above the first section, without the title. |
| DebtWriting.PreambleIs | tools/debt_split.py:164-174 | What is read above the sections is exactly the items before the first section that are not a first-level heading, in order. |
| DebtPreamble.PreambleReadsBack | tools/debt_split.py:141-174 | Whatever a file is, what is read above its sections is read again, once the file is written anew, exactly when no entry swallows the text that now follows it. |
| DebtPreamble.PreambleCanChange | tools/debt_split.py:171-172 | A file above whose sections an entry swallows a line when it is rewritten, since the title between them is dropped. |
| DebtDisk.WriteFile | tools/debt_split.py:141-190 | A file is gone when there is nothing to write, and otherwise has its title, its preamble and the sections with texts, those of the index in its order, then the others as they came in the file before; it then holds exactly the texts it was given if and only if each section can be written. |
| DebtDisk.OneFile | tools/debt_split.py:141-190 | When every section with texts is in the index or was in the file, the rewritten file is determined line by line. |
| DebtDisk.SplitOnDisk | tools/debt_split.py:225-241 | Refuses an index without an entry to move or with an entry above its sections; otherwise each component's file is read and written with what is filed there after what it held, and holds that exactly if it can be written; other files stay. |
| DebtIndex.SplitIndex | tools/debt_split.py:209-241 | The command as a whole: the new index reads as the items that are not moved, all of them in order, with the note as the second item, which is put in when they have none; nothing more would be moved from it and writing it again changes nothing; each file holds what it held and what is moved there exactly if it can be written. |
| DebtIndex.EveryItemHasAPlace | tools/debt_split.py:197-206 | Every parsed item is moved, when it is an entry with a component, or stays; both lists keep the order. |
| DebtIndex.IndexIsWritten | tools/debt_split.py:209-217 | The lines written are those of the items in order, headings and other texts between blank lines, entries one below the other; blank lines at the end are dropped. |
| DebtIndex.OneSplit | tools/debt_split.py:225-237 | The split of an index it does not refuse leaves one disk, determined line by line: the section of every moved entry is in the index. |
| DebtIndex.IndexReadsBack | tools/debt_split.py:209-217 | Items that can follow one another in a parsed text read back from the written index as they were, sections included. |
| DebtIndex.UnkeyedFollows | tools/debt_split.py:197-206 | Moving entries away leaves items that can follow one another: each keeps its section, and no entry comes to stand before an indented line. |
| DebtDisk.SplitIsAppended | tools/debt_split.py:225-237 | After the split every file holds what it held and what is filed there exactly if all of that can be written. |
| DebtDisk.RewrittenKeepsPreamble | tools/debt_split.py:182-190 | A rewritten file keeps what stood above its sections exactly when no entry there swallows the text that now follows it. |
| DebtDisk.ApplyOnDisk | tools/debt_split.py:248-326 | Reads the touched files, replays and writes them: a LookupError exactly when an original is missing, and then nothing is written; otherwise the files written are the touched ones, with sections, titles and preambles, and they hold what the replay on entries makes exactly if it can be written: for any files the exchange of the changed texts. |
| DebtWriting.TouchedAre | tools/debt_split.py:259-269 | A component is touched exactly when a changed stretch has an entry of it, old or new. |
| DebtDisk.SquareOnDisk | tools/debt_split.py:248-326 | What ApplyOnDisk promises, on files that hold the split of the old index, is the split of the new one exactly when what is filed of the touched components can be written. |
| DebtDisk.SplitThenApplyOnDisk | tools/debt_split.py:225-326 | Split, write, read, replay, write, on any files, given that all they hold after the split can be written: nothing is missing; each touched file is given the texts of its own and what is filed of the new index, both in order when they are apart, and holds that exactly if it can be written; the others hold just that. From files that held nothing, the result is the split of the new index exactly when all that is filed of it can be written. |
| DebtShapes.FileableUnlessAbove | tools/debt_split.py:16-39 | Of any index, with a relinking that leaves entries entries, all that is filed can be written exactly when no entry with a component stands above the first section. |
| DebtShapes.AboveIsNotFileable | tools/debt_split.py:288-298 | A change whose replay files an entry where it does not read back. |
| PersistentPeaks.Sweep | tools/trace_digest.py:232-257 | Before the filter every position is recorded once, with its persistence by the direct definition, and the persistences sum to the first value over the minimum plus every later increase. |
| PersistentPeaks.Peaks | tools/trace_digest.py:232-258 | The result holds exactly the positions of positive persistence, once each, by decreasing persistence and then position; of equal values the earlier one outlives the later. |
| PersistentPeaks.PersistenceIsLife | tools/trace_digest.py:232-258 | The persistence of p is its height over the global minimum if no value is greater, or equal and earlier; otherwise it is the least height over the lowest value on the way to such a position, attained at one of them. |
| PersistentPeaks.PersistenceIsHeightOverBestPass | tools/trace_digest.py:250-257 | The direct definition is the height over the best pass to any higher-priority point, or over the global minimum for the top. |
| PersistentPeaks.Find | tools/trace_digest.py:237-241 | Path halving terminates at the root of the component and changes no root. |
| PersistentPeaks.JoinKeepsForest | tools/trace_digest.py:250-252 | Joining two neighbouring components keeps them contiguous, rooted at their highest-priority positions. |
| PersistentPeaks.DeathIsPersistence | tools/trace_digest.py:250-251 | The height at which a component is absorbed is its root's persistence. |
| TraceAccounting.ReportThread | tools/trace_digest.py:291-320 | Frame i goes from present i to present i + 1, with one more up to the end of the window when that is after the last present, and none without presents. The shares of a thread add up to the span from the first present to the later of the last one and the end; on the gpu thread traced time is the measure of the union of the clipped slices and no share is negative; elsewhere none is negative when outermost waits end in their roots, and the busy time is otherwise too small by the waited time that is not traced. |
| TraceAccounting.Account | tools/trace_digest.py:298-312 | The two sums are the measures of the moments inside chosen slices: roots, or all for gpu; and outermost waits. |
| TraceAccounting.Nest | tools/trace_digest.py:122-129 | The stack pass gives every slice the number of slices it is stacked on and whether a wait is among them. |
| TraceAccounting.RootStandsAlone | tools/trace_digest.py:125-127 | A slice has depth 0 exactly when no earlier slice is still open when it starts. |
| TraceAccounting.AroundIsOpen | tools/trace_digest.py:125-129 | For well-nested slices, the slices on the stack are exactly the open ones. |
| TraceAccounting.RootsCountAllTime | tools/trace_digest.py:303-308 | Slices of depth 0 never count a moment twice, and count all traced time exactly when no slice outlasts its root inside the window. |
| TraceAccounting.WaitsInsideTraced | tools/trace_digest.py:303-312 | Waited time is part of traced time exactly when no outermost wait outlasts its root; their difference is always the traced time outside waits less the waited time outside traced. |
| TraceAccounting.WellNestedSums | tools/trace_digest.py:303-312 | For well-nested slices the sums are the time in any slice and the time in any wait. |
| TraceAccounting.GpuBounds | tools/trace_digest.py:296-312 | On the gpu thread waited time is within traced time and traced time within the window, whatever overlaps. |
| TraceAccounting.WaitedCanExceedTraced | tools/trace_digest.py:303-312 | Two slices with more waited than traced time. |
| TraceAccounting.FramesTile | tools/trace_digest.py:146-151 | Every moment between the first present and the end of the last frame is in exactly one frame. |
| Squarify.Squarify | tools/progress.py:293-306 | For positive values and a positive box: one rectangle per value, in order, each with its share of the area, tiling the box exactly; the rows lie along the shorter side, side by side; and a row takes one more value exactly when the worst ratio of sides among its rectangles gets no worse by it. |
| Squarify.WorstRatioIsWorst | tools/progress.py:275-277 | What the loop compares is at least width over height and height over width of every rectangle of the row, and is one of these. |
| Squarify.StripLiesIn | tools/progress.py:280-290 | The rectangles of a row lie side by side along the shorter side of the box, from its corner on, as thick as their areas make them; the rest is the rest of the box. |
| Squarify.LayOutRows | tools/progress.py:297-305 | The loop terminates without dividing by zero and keeps the rest of the box exactly as large as the areas left. |
| Squarify.RowFills | tools/progress.py:280-290 | A placed row and the rest tile the box. |
| Squarify.LayoutFills | tools/progress.py:297-305 | Any sequence of rows that fit, whatever decided them, and the rest tile the box. |
| Squarify.ThicknessFits | tools/progress.py:281-290 | A row is no thicker than the box, so the rest is a box of the area left. |
| TreemapCells.Cells | tools/progress.py:309-318 | `count` cells that tile the box, whatever the guess of rows was: rows of equal height, each with its share of the cells, equally wide and side by side. |
| TreemapCells.SharedOut | tools/progress.py:315 | The rows share out all cells, and none is empty. |
| BranchVariants.Odometer | tools/import_audit.py:591-606 | The odometer yields the Cartesian product of the choices, in lexicographic order. |
| BranchVariants.TurningShowsNext | tools/import_audit.py:597-604 | Turning a wheel and resetting those after it shows the next combination, and nothing is skipped. |
| BranchVariants.VariantsCount | tools/import_audit.py:586-606 | The number of variants is the product over groups of the sum over alternatives. |
| ConditionalInclusion.ReadTree | tools/import_audit.py:556-584 | The stacks build the tree of the text as it was written; failure exactly at the first stray directive, or at the end of an open group. |
| ConditionalInclusion.Enumerate | tools/import_audit.py:556-614 | The variants of the text, or the limit error exactly when there are more than 256, after the first 256 of them. |
| ConditionalInclusion.VariantsAreKept | tools/import_audit.py:556-614 | Under every truth assignment the kept text is one of the variants; when no branch follows an `#else`, every variant is kept under some assignment. |
| ConditionalInclusion.AfterElseIsNotKept | tools/import_audit.py:580-582 | A variant that no truth assignment keeps. |
| TrimmedInclusion.KeptIffEnumeratedTrimmed | tools/import_audit.py:580-582 | For every body: a text is kept under some truth assignment exactly when it is a variant of the body without branches after an `#else`. |
| FileBacking.ResolvedExactly | tools/annotate_module.py:119-131 | A non-empty range has a position exactly when at one distance the loads have every byte of it and the file is long enough. |
| FileBacking.EveryByteIsThere | tools/annotate_module.py:119-131 | Byte i of a resolved range is byte position + i of the file, inside some load, across load boundaries. |
| FileBacking.Address | tools/annotate_module.py:119-131 | Finds the position given by the first load that has the start and at whose distance the loads back every byte of the range, with the file long enough; none when no load does. |
| FileBacking.FileOffset | tools/import_audit.py:87-100 | The other tool's search: the first load that has the start and at whose distance every byte is backed decides; its position if the file is long enough for the range, and none otherwise. |
| FileBacking.BothResolveAlike | tools/import_audit.py:87-100 | For loads inside the file the two searches give the same position for every non-empty range. |
| FileBacking.Sweep | tools/annotate_module.py:124-127 | One pass over the sorted loads finds the first address that no load of the distance backs. |
| GnuSymbols.CountByOneChain | tools/annotate_module.py:143-153 | The walk from the greatest bucket counts up to the end of its chain, or the first hashed symbol. |
| SymbolWords.WordsLieThere | tools/annotate_module.py:143-153 | Bucket i is the word 16 + 8 * bloom + 4 * i past the table, the chain word of a symbol is 4 times its distance from the first hashed symbol past the buckets; each is told from the four bytes there. |
| SymbolWords.TableAtIs | tools/annotate_module.py:143-144 | The counts of a table are the first three words where its address resolves: buckets, first hashed symbol, bloom words. |
| SymbolWords.WordsAre | tools/import_audit.py:137-141 | The words the audit takes as buckets are those in the file behind the header and the bloom words, whatever the loads. |
| GnuSymbols.CountByEveryChain | tools/import_audit.py:135-159 | For any loads: none when the prefix is not in the file; otherwise one more than the greatest end of the chain of a word read as a bucket, or none when a word is too small or its chain does not end. |
| GnuSymbols.FollowBucket | tools/import_audit.py:148-158 | Stopping at a visited entry loses nothing: a bucket's chain is done exactly when it ends. |
| GnuSymbols.EarlierEndsEarlier | tools/annotate_module.py:151-152 | A chain that starts earlier ends no later, which is why one chain is enough. |
| GnuSymbols.CountsAgree | tools/annotate_module.py:143-153 | When no address is backed at two distances and the audit counts, the counts are equal exactly unless symbols are hashed from 0 on and no bucket is used. |
| GnuSymbols.CountsAgreeWhen | tools/annotate_module.py:143-153 | For any loads, when the audit counts: the other tool counts the same exactly when the greatest bucket as it resolves it and the greatest word the audit reads lead to the same end of a chain, or neither is followed. |
| MovedBucket.BucketsCanDiffer | tools/import_audit.py:135-159 | An ELF file with a used bucket whose address two loads have at two distances; the tools count two and three symbols. |
| UnusedBucket.CountsCanDiffer | tools/import_audit.py:142-159 | An ELF file on which one tool counts no symbol and the other one. |
| PeImage.ReadBytes | tools/symbolize_samples.py:87-103 | Reading in chunks gives, for every byte, what the one section that has its address holds in the file, or zero past its data; or it is refused as the first byte that cannot be read is: gaps, overlaps, truncation and section boundaries included. |
| PeImage.ReadString | tools/symbolize_samples.py:105-123 | Scanning in stretches gives the bytes of the image up to the first zero, each as told from its section, or the refusal met first. |
| PeImage.RangeIsOneSection | tools/symbolize_samples.py:77-85 | Throughout a mapped range the same single section holds the address. |
| PeImage.TextAfterChunk | tools/symbolize_samples.py:116-123 | A string that begins with a zero-free stretch is that stretch and the string after it. |
| CommandTree.Tree | tools/agc_test_split.py:149-168 | Fails exactly where the commands are not balanced, with the source's error; otherwise flattening the tree gives the commands back, and no other tree does. |
| CommandTree.FormedIsBalanced | tools/agc_test_split.py:149-178 | Flattening any tree gives a balanced list. |
| CommandTree.SameAll | tools/agc_test_split.py:171-178 | Two trees with the same commands, up to where the list ends, are the same tree. |
| CMakeSplit.Split | tools/agc_test_split.py:719-754 | There is a fragment for each unit to which a node moves. It has exactly those nodes, as they were and in order, each inside the single-branch `if`s around it in the list; for every valuation of the conditions it runs exactly those of them that the list runs, and what is left, a balanced list, exactly the others, tidied up. A single-branch `if` keeps its two lines exactly when something inside stays; any other command is in what is left exactly when it is in no fragment; every command is in one place at most. |
| CMakePlaces.FragmentHasUnit | tools/agc_test_split.py:693-725 | A node is in the fragment of a unit exactly when it stands under single-branch `if`s only, is none itself, and begins on a line that is assigned to the unit; the guards open around it are those it stands under. |
| CMakePlaces.SingleStays | tools/agc_test_split.py:726-746 | However deep a single-branch `if` is, its first and last line stay exactly when some command inside it stays. |
| CMakeSplit.OnePlaceOnly | tools/agc_test_split.py:719-754 | A node the list reaches is reached, as it was, as often by the fragment of its unit and by no other; tidied up, it is reached by what is left exactly when it has no unit. |
| CMakeSplit.CommandsHavePlaces | tools/agc_test_split.py:719-754 | Every command of the list, and no other, is in exactly one place; those in none are `if` and `endif` lines. |
| CMakeShells.NothingIsLost | tools/agc_test_split.py:726-746 | As a multiset, a list is what stays of it, what moves, and the lines of emptied guards, those inside atoms that stay included. |
| CMakeSplit.Group | tools/agc_test_split.py:722-725 | Every unit with members gets all of them, in order. |
| CMakeFragments.FragmentItems | tools/agc_test_split.py:693-716 | Guards are opened and closed in balance around the members' nodes as they were, in order, and running the fragment reaches just the nodes of the members whose guards all hold. |
| CMakeFragments.RunReachesAtoms | tools/agc_test_split.py:191-196 | Running a list reaches exactly the nodes of its atoms whose whole chain of conditions holds, in order. |
| CMakeFragments.PruneRuns | tools/agc_test_split.py:726-736 | Without the moved atoms and the emptied guards a list reaches just the nodes of the atoms that stay, from which only emptied guards are gone. |
| CMakeResidual.Residual | tools/agc_test_split.py:726-746 | Deleting the atoms' lines and then, innermost first, those of emptied guards leaves exactly the pruned list. |
| CMakeResidual.KeptIsPruned | tools/agc_test_split.py:739-746 | The commands whose lines are not gone are those of the pruned tree. |
| TestSelection.Select | tools/select_tests.py:273-318 | Everything, with the paths that cause it, exactly when a changed path asks for it; otherwise the least set that holds every test with a changed argument, a changed file in its target's closure or another direct reason, and is closed under dependencies, fixture setups and consumers, with all reasons of every picked test, of which there is one at least, and no other. |
| TestSelection.MoreChangesMoreTests | tools/select_tests.py:273-318 | More changed paths never select fewer tests, a full run counting as all. |
| TestSelection.PickDirect | tools/select_tests.py:282-294 | The directly affected tests, each with all its direct reasons. |
| TestSelection.DirectReasonsAre | tools/select_tests.py:282-294 | Each direct reason, told from the changed paths, the arguments, the directories and the targets. |
| TestSelection.DirectHasReason | tools/select_tests.py:284-294 | A test is picked directly exactly when it has a reason. |
| PadTimeline.Compile | tools/pad_timeline.py:18-57 | Compiles a document unless one of the listed faults applies to it, and is refused for the first that does; the text has a header and one line per event and repetition, with its shifted times and the decimal mask, and the reader gives back the sequence number of every text that comes out. |
| PadTimeline.TimelineSequence | tools/pad_input.py:20-53 | For every text: the sequence number when the text is a header and lines of three numbers, in order and within the limits, told from its characters, and 0 for any other. |
| PadTimeline.SequenceGives | tools/pad_input.py:20-53 | The grammar of a command file: when a text is one, and with which sequence number. |
| PadTimeline.ThreeIs | tools/pad_input.py:38-47 | A line has three numbers exactly when it is white space, a number, white space unless a sign follows, and so on, up to white space at its end. |
| PadTimeline.FileReadsBack | tools/pad_input.py:20-53 | Any printed file of rows in order, within the limits, is accepted with its sequence number. |
| PadTimeline.RepeatedIsTimed | tools/pad_timeline.py:51-56 | The repetitions do not overlap and end within the hour. |
| PadTimeline.MaskIsClean | tools/pad_timeline.py:46-48 | A mask of known buttons stays within 0x70fffe. |
| PadTimeline.MaskIs | tools/pad_timeline.py:46-48 | A bit of the mask is set exactly when a named button has it. |
| PadTimeline.MaskTells | tools/pad_timeline.py:46-48 | Two lists of known names with one mask name the same buttons, `release` aside. |
| AbLog.ReadLog | tools/ab_split.py:79-126 | Accepts exactly the logs in which no line is wrong, fails with what is wrong at the first one, and otherwise has the configuration line, if there is one, and each phase of the log in order with its boundaries and exactly the reports that count for it: those after it settled, before the next one begins, whose previous line of the same kind is also past the settling. |
| AbLog.CountsIs | tools/ab_split.py:117-124 | Which report counts for which phase, told from the lines before it; no report of its kind stands between it and the previous one. |
| AbLog.FaultIs | tools/ab_split.py:86-115 | What is wrong with a line, told from the lines before it. |
| AbLog.StatesDecide | tools/ab_split.py:117-124 | A report is credited exactly when it can be parsed and the current phase had settled both there and at the previous line of its kind. |
| AbLog.IndicesIncrease | tools/ab_split.py:93-95 | Phase indices strictly increase over an accepted log. |
| AbLog.BoundariesGoOn | tools/ab_split.py:97-115 | Begin and settle points never go backwards. |

## Left out

- DebtSplit.ApplyChange: works on the texts of entries; the files, with section order, titles, preambles and the list of those written, are `DebtDisk.ApplyOnDisk`.
- DebtDisk.WriteFile: sections that neither the index nor the file before has come last in any order, where the source keeps the order in which they were met; the split has none (`DebtIndex.OneSplit`).
- DebtText.ReadsBackIffWritable: takes title and preamble as any lines without a third-level heading; what is read of them again is `DebtPreamble.PreambleReadsBack`.
- DebtDisk.SplitThenApplyOnDisk: when a file has a text of its own that is also filed there, its texts are stated as a multiset, and their order through `DebtExchange.Exchanged`.
- DebtShapes.FileableUnlessAbove: that relinking leaves entries entries is a hypothesis, since the pattern of links is not modelled.
- DebtText.Parse: a file is a list of lines without line breaks in them; white space is the ASCII one.
- UnwrapOutcome.Unwrap: the decryption check is an arbitrary predicate on the bytes and the placed segments, since it rests on floating-point logarithms.
- TraceAccounting.ReportThread: times are integers, so that rounding of timestamps and sums of floats are not modelled.
- TreemapCells.Cells: the rounded square root that guesses the number of rows is a parameter.
- PersistentPeaks.Peaks: values are exact reals.
- Squarify.Squarify: values are exact reals; the rounding of coordinates in the drawing is not modelled.
- BranchVariants.Expand: enumerates eagerly where the source uses generators; the limit is therefore checked at the end of the enumeration, on the same count.
- PadTimeline.TimelineSequence: the text-mode branches for Windows are not modelled; a file is a string of ASCII characters.
- PeImage.ReadString: gives bytes; decoding them as UTF-8 with replacement is not modelled.
- CommandTree.Tree: every command stands on one line and is known by it; comments, blank lines and multi-line commands, and the text layout of fragments, are not modelled.
- CMakeSplit.Split: which unit an atom belongs to is given, since ownership is a heuristic; the place of the include line is not modelled.
- AbLog.ReadLog: a report line carries whether its numbers can be parsed; the text patterns are not modelled.
- Relinking of paths in moved entries is an arbitrary function of text and component.
- The edit script is any valid list of opcodes; difflib is not modelled.
- A struct.error in packing is the refusal `Unpackable`.
- Files, processes, git, atomic replacement, path aliasing, argument parsing and verbose printing.
- Leaders, totals, longest waits, slowest frames, folded samples and GPU batches of the trace digest; metrics and noise of A/B reports.
- DT_HASH counts, string tables, symbols and relocations of modules; imports and exports of PE files; host dependency audits and test batches.
- Rendering as HTML, SVG, Markdown and JSON, and validation of JSON shapes.
