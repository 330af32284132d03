# ELF-DOS: verification of the file system core and its tools

ELF-DOS is a small operating system for the 1802. Its kernel keeps one FAT sector
in memory for up to six drives, reads directories through an iterator that can be
saved and restored, and boots from an image that a build tool splits in two. The
repository also holds reference tools: a Markdown row builder, a FAT12 reference
encoder, a volume tool and a card formatter. This project models these parts and
proves what they are relied on for. `dafny verify dfyconfig.toml` checks all of it.

How the parts are modelled:

- **The FAT layer** (`fat_*.dfy`). `FatKernel.Kernel` is the kernel's state: disks,
  drive table, cached sector, owner, dirty flag and allocation hint. Each routine is
  a method, every sector transfer may fail, and a failed read may leave anything in
  the buffer. What a drive's files see is `Effective`: the FAT on disk, overlaid by
  the cached sector while that is modified and belongs to the drive. `FatRuns` then
  proves that a whole run of calls answers as plain per-drive lists of entries would,
  and derives what follows for runs (lowest-free allocation, no cluster twice).
- **The Markdown reference** (`md_*.dfy`). `MdBuilder`, `MdRender` and `MdReader` are the
  objects and loops; `MdWrap`, `MdInline` and `MdSource` say what they compute, from a
  single byte to a whole file; `MdTerminal` says, independently of all of them, what a
  terminal shows of a row. Content, width and independence of colour are stated in terms
  of what the terminal shows, for every file, whatever its bytes; styles and unbroken
  characters exactly as far as continuation bytes follow a character. `MdSpans` and
  `MdShapes` say what the markup means: rendering and gathering undo writing. `MdBreak`
  says where rows end, `MdStack` and `MdLooks` how blocks are put together.
- **Directories** (`dir_*.dfy`). `DirList` reads a list of 32-byte slots as the list
  of entries it stands for; `DirSectors` says which sectors a directory has;
  `DirReader.Directory` is the iterator. `LongNames` and `ShortNames` are the two
  ways a name is put together. `DirOnFat` ties the chains followed to FAT bytes.
- **Volume geometry** (`boot_geometry.dfy`, `format_geometry.dfy`). The arithmetic of
  the boot loader and of the cluster-to-sector routine, with their 16, 24 and 32-bit
  wrap-around, and the formatter's choice of layout; `FormattedVolumeBoots` formats a
  partition and boots it. `volume_layout.dfy` compares where the boot loader, the
  directory iterator and the volume tool look on one volume.
- **The volume tool** (`fatx_*.dfy`), **the kernel split** (`boot_split.dfy`) and
  **batch scripts** (`batch_*.dfy`).

Results where the code does not always meet its promise are stated as an exact
condition, each with a lemma that shows an input on the wrong side of it:

- A drive switch ignores a failed flush; it loses nothing exactly when nothing was
  pending (`SwitchSafeIffNothingPending`; `LostChangeExample`).
- A failed sector read leaves the cache tagged with the old sector. It can be relied on
  afterwards exactly when nothing was cached or the buffer did not change
  (`FailedLoad`), and a later store writes the damage along (`StoreAfterFailedLoad`;
  `DamagedCacheExample`).
- A non-zero value whose low 12 bits are zero, stored below the allocation hint, frees a
  FAT12 cluster without lowering the hint; that is the only step that breaks lowest-free
  allocation (`StepKeepsLowest`; `HiddenFreeExample`). Values $FF7 to $FFF6 are the ones
  a FAT12 entry gives back changed (`StoredThenRead`; `ChangedMarkExample`).
- The boot loader accepts volumes whose last cluster ends behind the partition:
  `AllInsideIff` has the condition for every accepted volume, in terms of the header. It
  fails for two reasons, an overhead that does not fit 16 bits (`LongOverheadExample`)
  and a cluster size that is not a power of two (`ThreeSectorExample`); with a power of
  two only the first remains (`AllInsidePow2Iff`). Cluster sectors are apart exactly
  when the cluster size is a power of two (`AllDistinctIff`).
- The loader multiplies the number of FATs by their size in 16 bits. `Overhead` contains
  the reduced product, so when it wraps the data region begins inside the FATs: clusters
  are clear of them exactly when the true product fits (`DataClearIff`;
  `WrappedProductExample`). Nor does it check that the volume has a FAT long enough for
  its clusters, within the 24-bit sector numbers (`SoundIff`).
- The formatter's FAT can be one or two entries short of the last cluster
  (`EntriesFit`; `ShortFatExample` is a volume of 4161 sectors).
- The volume tool's data region is the kernel's only where that product does not wrap and
  the root directory fills its last sector (`ToolFindsDataIff`).
- The volume tool's end mark is the FAT12 one on every volume, so a stored file's
  chain ends exactly on FAT12 (`ChainEndsIff`; `WrongEndExample`).
- The splitting tool accepts a volatile half that ends between $4300 and $43FF; loading
  it in whole sectors then erases the loader's first page, and the loader never goes on
  (`Loader.Boot`; `RoundedLoadExample`).
- A root directory of 256 sectors or more is never through, unless one of its first 256
  cannot be read (`RootEndsIff`).
- An entry whose name is all spaces leads the directory reader astray when the byte in
  front of the caller's buffer is a space too (`ShortNames.Format`, `Directory.Read`).
- A file stored on a volume with too little room is cut short without notice: it comes
  back exactly when it fits the clusters taken (`StoredReadsBack`; `FullVolumeExample`).
- A stray continuation byte can be shown in another style, and can begin a row; of a code
  line that is so exactly when it comes first (`CodeLineKept`; `StrayByteExample`).
- Colour changes the layout of a row that reaches the length cutoff (`LongRowExample` is
  a line of 224 characters of four bytes).
- A label with a space in it can be found on a line that is not the label
  (`StaleLabelExample`).
- A batch line ended by LF must have at most 125 bytes, an unterminated last one at
  most 126 (`ReadsAreLinesIff`; `LongLineExample`).

Where comments and code disagree, the code is followed. `boot/krnboot.asm:671-676`
says that the start of an absent drive's partition is already zero; when a volume is
refused only after its boot sector was read, the start stays in the entry
(`BootGeometry.Absent`). `boot/krnboot.asm:289-333` promises that loading cannot write
outside the image; that holds of the non-volatile half, while the volatile half is
loaded in whole sectors (`KernelSplit.Restored` names the bytes written).

## Model

| member | source | states |
|---|---|---|
| FatEntry.Put12Exact | tools/fat12-proto/sim12.py:140-151 | the 12-bit update stores the low 12 bits and leaves every other entry as it was, neighbours sharing a byte included |
| FatEntry.Put12At | kernel/fat.asm:569-629 | the kernel's shifted pattern and its two masked stores are the reference encoder's update |
| FatEntry.FirstByteOnly | kernel/fat.asm:594-611 | between the two stores of a straddling entry every other entry reads as before |
| FatEntry.PutExact | kernel/fat.asm:518-674 | one update changes one entry, for both entry sizes |
| FatEntry.StoredThenRead | kernel/fat.asm:400-437 | an entry reads back unchanged exactly when it is 16-bit, below $FF7, or one of the widened marks |
| FatEntry.EntryLayout | tools/fat12-proto/sim12.py:140-151 | which bytes an entry has: two, low byte first, or for a pair of 12-bit entries three, the middle one shared by halves |
| FatEntry.EntriesDetermineBytes | tools/fat12-proto/sim12.py:140-151 | a pair of 12-bit entries determines its three bytes, so the encoding hides nothing |
| FatWorld.FlushKeepsFats | kernel/fat.asm:836-929 | a flush, complete or cut short at any copy, changes no drive's FAT and writes only the active drive's FAT area |
| FatWorld.FlushMirrors | kernel/fat.asm:836-929 | a complete flush keeps all FAT copies of every drive equal |
| FatWorld.LoadKeepsFats | kernel/fat.asm:182-338 | evicting and loading a sector changes no drive's FAT |
| FatWorld.FailedLoad | kernel/fat.asm:273-338 | after a failed read over a clean cache the cache is still good exactly when nothing was cached or the buffer is unchanged; no FAT changes by that alone |
| FatWorld.StoreAfterFailedLoad | kernel/fat.asm:518-549 | a store into such a buffer is a change of one byte exactly when no other byte had been damaged |
| FatWorld.StoreChangesOneByte | kernel/fat.asm:591-623 | a store into the cache is a change of one byte of the active drive's FAT and of no other |
| FatWorld.CleanCacheIrrelevant | tools/fat12-proto/sim12.py:133-138 | what a clean cache holds never matters to what a drive's files see |
| FatWorld.EffectiveOnDisk | kernel/fat.asm:264-290 | what a drive's files see of byte o, while none of it is pending, is byte o % 512 of sector fat_lba + o / 512 on disk |
| FatWorld.MirrorOnDisk | kernel/fat.asm:864-907 | and of a drive with equal copies also that byte of sector fat_lba + c * spf + o / 512, for every copy c |
| FatWorld.SwitchKeepsFats | kernel/fat.asm:962-1056 | a drive switch whose flush succeeds changes no drive's FAT and keeps the cached sector usable |
| FatWorld.SwitchAfterFailedFlush | kernel/fat.asm:984-1040 | after a failed flush the switch still keeps all FATs exactly when the first copy was written or nothing differed |
| FatWorld.SwitchSafeIffNothingPending | kernel/fat.asm:984-1040 | a switch is safe against every write error exactly when no change was pending |
| FatView.PickIsExact | kernel/fat.asm:713-827 | next-fit from any hint finds the least free cluster from the hint on, else the least one, and none only when all are in use |
| FatView.PickIsLowest | kernel/fat.asm:630-668 | with nothing free below the hint the choice is the lowest free cluster |
| FatKernel.Kernel.constructor | kernel/fat.asm:80-91 | the state at boot: nothing cached, hint 2, every drive valid |
| FatKernel.Kernel.CopyLba | kernel/fat.asm:864-907 | the address of a sector of FAT copy c is fat_lba + c * spf + sector |
| FatKernel.Kernel.FatFlush | kernel/fat.asm:836-929 | how many copies were written, when it counts as done, and the state it leaves in either case |
| FatKernel.Kernel.LoadSector | kernel/fat.asm:182-338 | on success the cache holds the sector asked for; no FAT changes whatever fails; after a failure the state is valid exactly when nothing is cached or the buffer is unchanged |
| FatKernel.Kernel.Offset12 | kernel/fat.asm:453-465 | sector index and offset of a 12-bit entry, by 16-bit shifts |
| FatKernel.Kernel.Decode12 | kernel/fat.asm:388-432 | the two bytes give the entry, with marks from $FF7 on widened to 16 bits |
| FatKernel.Kernel.FatGet | kernel/fat.asm:352-437 | returns the entry of the active drive's FAT, with nothing pending the one on disk, and changes no FAT |
| FatKernel.Kernel.FatSet12 | kernel/fat.asm:550-629 | the packed update through the cache, across a sector boundary and its flush; RD and RB are overwritten on the way, RB comes back at every exit and RD on success; a failure leaves at most the first half of this one entry written |
| FatKernel.Kernel.FatSet | kernel/fat.asm:518-674 | stores one entry of the active drive, lowers the hint when it frees below it, and returns RD and RB unchanged |
| FatKernel.Kernel.FindFree | kernel/fat.asm:713-790 | the search loop with its wrap flag ends, and finds what next-fit says |
| FatKernel.Kernel.FatAlloc | kernel/fat.asm:713-827 | allocates what next-fit says, marks only that entry, moves the hint past it; reports full only when all clusters are in use |
| FatKernel.Kernel.SwitchDrive | kernel/fat.asm:962-1056 | activates a present drive, refuses another, keeps the cached sector across the switch |
| FatRuns.Exec | kernel/fat.asm:182-338 | each call does and answers what the machine of plain entry lists does and keeps mirrors; failing or not it writes only the active FAT, and a failed call changes at most the entry it was to change, an allocation that of the cluster it would have given |
| FatRuns.Run | kernel/fat.asm:182-1056 | so does any sequence of calls over any drives while transfers succeed; only FAT sectors are written and equal copies stay equal |
| FatRuns.StepKeepsLowest | kernel/fat.asm:630-668 | a call keeps everything below the hint in use exactly when it is not a non-zero value stored as zero below the hint |
| FatRuns.LowestFreeInvariant | kernel/fat.asm:630-668 | on one drive nothing below the hint is ever free, in any run without such a step |
| FatRuns.AllocIsLowest | kernel/fat.asm:635-664 | hence every allocation of such a run returns the lowest free cluster |
| FatRuns.RunThenAlloc | kernel/fat.asm:635-664 | the kernel itself: an allocation after such a run returns the lowest free cluster and is refused only when there is none |
| FatRuns.RunThenFlush | kernel/fat.asm:836-929 | a run that is flushed at its end is on disk: of the drive it ends on every copy of the FAT spells out the plain entry list |
| FatRuns.HiddenFreeExample | kernel/fat.asm:630-668 | storing $1000 in cluster 2 with the hint at 3 makes the next allocation skip it |
| FatRuns.OtherDrivesKept | kernel/fat.asm:836-929 | a run changes no drive it does not visit |
| FatRuns.InUseStays | kernel/fat.asm:713-827 | a cluster in use stays in use until something is freed |
| FatRuns.AllocationsDistinct | kernel/fat.asm:713-827 | two allocations on a drive never return the same cluster unless something was freed in between |
| FatExamples.LostChangeExample | kernel/fat.asm:984-1040 | a modified sector is lost by a switch whose first write fails |
| FatExamples.DamagedCacheExample | kernel/fat.asm:273-338 | a failed read makes the cache wrong and a later store spreads it |
| FatExamples.ChangedMarkExample | kernel/fat.asm:400-437 | $FF8 stored in a 12-bit entry is read back as $FFF8 |
| MdTerminal.Vis | tools/mdvref.py:151-168 | the column count of a row is what a terminal shows of it |
| MdTerminal.ShowCat | tools/mdvref.py:151-168 | what is shown is additive over concatenation, from the terminal state reached |
| MdTerminal.ShowSgr | tools/mdvref.py:31-39 | an SGR sequence shows nothing and replaces the style |
| MdBuilder.Builder.StartRow | tools/mdvref.py:66-76 | starts a row with its prefix, after the blank row that is due |
| MdBuilder.Builder.ApplyStyle | tools/mdvref.py:83-92 | emits a style change only when the style differs |
| MdBuilder.Builder.FinishRow | tools/mdvref.py:94-97 | ends a row with a reset when a style is on |
| MdBuilder.Builder.CarryOver | tools/mdvref.py:120-133 | breaks at the last space and carries the rest and its style to the next row |
| MdBuilder.Builder.Add | tools/mdvref.py:99-142 | one byte of text: tabs, controls, continuation bytes, spaces and full rows |
| MdBuilder.Builder.Close | tools/mdvref.py:144-148 | ends the block's last row |
| MdContent.PutByteOk | tools/mdvref.py:99-142 | a byte put adds exactly its own cell, in its style, to what the block shows, and every row still fits |
| MdContent.BackUpOk | tools/mdvref.py:120-133 | backing up to a space keeps every non-space byte, the order and the styles, and recounts the columns |
| MdContent.ContentKept | tools/mdvref.py:99-142 | whatever is put, the bodies show its bytes in order, in words the non-space ones, in code all; each in its style exactly when every continuation byte finds its style in effect |
| MdContent.BlockKeepsText | tools/mdvref.py:54-148 | the same for a whole block, whose rows all fit and end reset; in plain, and where continuation bytes follow their characters, the styles are kept |
| MdUtf8.PutByteWhole | tools/mdvref.py:99-142 | a continuation byte goes to the row its character began on |
| MdUtf8.NoBreakInsideCharacter | tools/mdvref.py:99-142 | no row break falls inside a character, as long as continuation bytes follow a byte of the content |
| MdUtf8.BlockHeads | tools/mdvref.py:54-148 | no finished row of such a block begins with a continuation byte |
| MdBreak.BlockBroken | tools/mdvref.py:99-148 | where the rows of a block are broken: inside a word only in a full row without a space, else at spaces behind which the next word would not have fitted, unless the row was too long in bytes; with the spaces dropped put back the rows are the text |
| MdColour.StripWidth | tools/mdvref.py:151-168 | stripping escape sequences does not change the columns |
| MdColour.PutByteSim | tools/mdvref.py:99-142 | coloured and plain builders stay at the same point byte by byte |
| MdColour.ColourKeepsLayout | tools/mdvref.py:66-148 | a block rendered in colour strips to the same block rendered plain, while no row reaches the 900-byte cutoff |
| MdRender.RunLength | tools/mdvref.py:181-186 | the length of a run of one character, never reading past the NUL |
| MdRender.FindCodeClose | tools/mdvref.py:188-199 | the closing run of backticks of equal length, in range |
| MdRender.FindEmphClose | tools/mdvref.py:225-245 | the closing emphasis run, code spans and escapes skipped, in range |
| MdRender.FindMatching | tools/mdvref.py:247-283 | the matching closing bracket or parenthesis, in range |
| MdInline.EmphClose | tools/mdvref.py:225-245 | a close found is a run of exactly the opening length that can close, at or after the start and before the NUL |
| MdInline.MatchingBalances | tools/mdvref.py:247-283 | a match found closes as many openings as stand before it, escaped pairs aside, and is the first that does; none is found only when none does |
| MdInline.Step | tools/mdvref.py:285-408 | every turn of the rendering loop moves forward and stays at or before the NUL |
| MdRender.TakeStep | tools/mdvref.py:294-407 | one turn of the loop, with its scanners run as loops |
| MdRender.RenderInline | tools/mdvref.py:285-408 | the loop ends and hands the builder exactly the rendered bytes with their styles, whatever the width |
| MdRender.RenderKeepsCharacters | tools/mdvref.py:285-408 | rendering keeps every UTF-8 character in one piece and one style |
| MdSpans.ProseRendered | tools/mdvref.py:285-408 | rendering undoes writing: text made of words, nested emphasis by one to three marks, code, links, images, references, autolinks, escapes and literal marks shows exactly what each means, in its style and order |
| MdSpans.MarksMay | tools/mdvref.py:201-223 | when a run of stars or underscores may open or close, by the bytes around it |
| MdSpans.ItalicExample | tools/mdvref.py:335-360 | a letter between single stars is shown in italics |
| MdDoc.FlushText | tools/mdvref.py:427-465 | flushing a paragraph, list item, quote, heading or table renders that block |
| MdDoc.CodeRow | tools/mdvref.py:467-484 | a code line is put with its tabs expanded to columns of eight |
| MdDoc.DocumentFits | tools/mdvref.py:111-148 | for every sequence of sound blocks and every width from 20, no row is wider than the screen and every row leaves the terminal reset |
| MdDoc.ColouredDocumentStrips | tools/mdvref.py:66-97 | stripping a coloured document gives the plain one row by row, unless a row reaches the cutoff |
| MdDoc.TextBlockKept | tools/mdvref.py:427-465 | a wrapped block of any text shows each non-space byte of its rendered text once and in order, in its style exactly when continuation bytes find it; in well-formed text they do, and no row begins inside a character |
| MdDoc.CodeLineKept | tools/mdvref.py:467-484 | the rows of any code line put end to end are its whole text; in colour its style is kept, and no row begins inside a character, exactly when the first byte shown is no continuation byte |
| MdDoc.StrayByteExample | tools/mdvref.py:99-142 | a code line of one stray continuation byte shows it without style at the head of a row |
| MdSource.LineSound | tools/mdvref.py:518-674 | one line keeps margins, markers and texts within bounds and completes only sound blocks |
| MdSource.BlocksSound | tools/mdvref.py:518-689 | every block formed of any file is sound: prefixes of at most 19 columns, markers of printable bytes, texts ended by their NUL |
| MdSource.RowsFit | tools/mdvref.py:680-689 | for every file and every width from 20, no row is wider than the screen and every row leaves the terminal reset |
| MdSource.ColourStrips | tools/mdvref.py:680-689 | for every file the coloured rows strip to the plain ones, unless a row reaches the cutoff |
| MdCutoff.LongRowExample | tools/mdvref.py:99-142 | a code line of 224 four-byte characters takes one row in plain and two in colour |
| MdKept.FileKept | tools/mdvref.py:518-689 | the letters of a file's blocks are those of its lines, in order, but for what stands behind an opening fence |
| MdKept.FencelessKept | tools/mdvref.py:518-689 | without a fence, they are the letters of the file |
| MdShapes.PiecesGathered | tools/mdvref.py:518-689 | gathering undoes writing: a file of paragraphs, headings of both kinds, bullets, numbers, paragraphs of items, quotes, fences, indented code, breaks, table rows and lines of marks that are text has exactly those blocks, a gap behind each |
| MdStack.DocumentIsStacked | tools/mdvref.py:54-76 | a document's rows are those each block takes alone, one below the other, with one blank row where gaps separate two and nowhere else |
| MdStack.FileIsStacked | tools/mdvref.py:680-689 | the same of the rows of a file |
| MdLooks.LeadLooks | tools/mdvref.py:436-457 | what stands in front of a row: margin, marker in cyan and a space, or a green bar and a space |
| MdLooks.AloneLooks | tools/mdvref.py:486-510 | a thematic break is a row of dashes across the screen, an empty quote one bar |
| MdLooks.StyleCodes | tools/mdvref.py:31-39 | the SGR codes of the styles |
| MdLooks.HeadingCodes | tools/mdvref.py:458-459 | the SGR codes of the headings |
| MdLooks.ByteLooks | tools/mdvref.py:99-118 | a byte of text is shown as itself, a tab as a space, a control not at all |
| MdLooks.TabStops | tools/mdvref.py:467-484 | a tab in code becomes the spaces to the next multiple of eight columns, counting what is shown before it |
| MdReader.Reader.Flush | tools/mdvref.py:427-465 | hands over the gathered block: its rows are added and the parse is closed |
| MdReader.Reader.TakeItem | tools/mdvref.py:604-627 | a list item sets margin, marker, continuation and the margin paragraphs inherit |
| MdReader.Reader.TakeQuote | tools/mdvref.py:629-646 | a quoted line begins or continues a quote, or is shown as an empty one |
| MdReader.Reader.TakeText | tools/mdvref.py:666-674 | other text continues the block or begins a paragraph at the list's margin |
| MdReader.Reader.Line | tools/mdvref.py:518-674 | one line, all its cases in order, leaves the parse and the output that the line's step says |
| MdReader.RenderFile | tools/mdvref.py:680-689 | a file read line by line gives exactly the rows of its blocks |
| MdText.BlocksWhole | tools/mdvref.py:518-689 | a well-formed file has only well-formed blocks |
| MdText.FileTextKept | tools/mdvref.py:680-689 | among the rows of any file, those of each wrapped block show every non-space byte of its rendered text once and in order, and those of a code line all of it; in their styles exactly when continuation bytes find them, which in a well-formed file they do, and there no such row begins inside a character |
| MdText.FileBroken | tools/mdvref.py:680-689 | the rows of every wrapped block and code line of any file are broken that way |
| LongNames.Assembler.Extract | kernel/dir.asm:1298-1324 | copies low bytes up to the first terminator, which is stored as NUL |
| LongNames.Assembler.Process | kernel/dir.asm:1157-1281 | one long-name slot, with any sequence byte, keeps all writes inside the buffer and the final NULs in place |
| LongNames.ProcessedKeepsTail | kernel/dir.asm:1220-1241 | no sequence byte reaches past the buffer or touches the zero bytes behind 117 characters |
| LongNames.NameDecoded | kernel/dir.asm:1140-1275 | decoding inverts the layout: the name comes back exactly, cut at 117 characters, whatever was there before |
| LongNames.CharsAre | kernel/dir.asm:1243-1275 | where a slot keeps its thirteen characters |
| LongNames.ComputeChecksum | kernel/dir.asm:1346-1372 | the loop computes the rotate-and-add checksum of the 11 bytes |
| LongNames.OneByteChangeSeen | kernel/dir.asm:340-363 | a short name with one byte changed has another checksum, so a stale long name is not taken for it |
| LongNames.RotatedIs | kernel/dir.asm:1346-1372 | the checksum rotates to the right |
| LongNames.ChecksumExample | kernel/dir.asm:1346-1372 | the name README.TXT has the checksum $73 |
| ShortNames.Format | kernel/dir.asm:860-1134 | writes the folded, trimmed name with its dot and NUL, within 13 bytes; goes astray exactly when the base name is all spaces and the byte in front of the buffer is one too |
| ShortNames.CopyTrimmed | kernel/dir.asm:973-1045 | one part copied with its case folded and its trailing spaces dropped, looking one byte further back when there is nothing else |
| ShortNames.ShortNameBack | kernel/dir.asm:862-900 | a name of one case, stored in upper case with its hints, is shown as it was given |
| ShortNames.CaseHints | kernel/dir.asm:942-972 | hint $08 puts the base name in small letters, $10 the extension, $18 both |
| DirList.EntriesAreShownSlots | kernel/dir.asm:281-560 | the list has exactly the live slots in front of the end marker, in order: deleted, volume-label and long-name slots are passed over |
| DirList.ShownIs | kernel/dir.asm:310-336 | shown are slots not deleted, no part of a long name and no volume label |
| DirList.LongNameListed | kernel/dir.asm:337-366 | an entry behind its long-name slots is listed under the long name when the checksum is its own, else under the short one |
| DirList.ShortNameListed | kernel/dir.asm:366-370 | an entry with nothing in front of it is listed under its short name |
| DirList.BrokenLongName | kernel/dir.asm:530-535 | a deleted slot, a volume label or a long-name slot numbered 0 in between breaks a long name off |
| DirList.SearchesAgree | kernel/dir.asm:119-128 | without a name under way, what the name buffer holds does not matter to later entries |
| DirSectors.RootDelivers | kernel/dir.asm:593-630 | the iterator comes to the sectors of the root region in order, up to the first that cannot be read, and stops there or at the end |
| DirSectors.RootEndsIff | kernel/dir.asm:593-618 | reading the root comes to a stop exactly when it has at most 255 sectors or one of its first 256 cannot be read |
| DirSectors.ChainDelivers | kernel/dir.asm:635-770 | the iterator comes to every sector of every cluster of the chain in order, up to the first that cannot be read, and stops there or at the end |
| DirSectors.OpenedAtStart | kernel/dir.asm:80-112 | an opened iterator stands before all slots of the directory |
| DirSectors.SlotsAre | kernel/dir.asm:281-330 | sixteen slots to a sector, each its 32 bytes in order |
| DirOnFat.ChainIff | kernel/dir.asm:677-707 | the reader follows exactly the chains the FAT bytes spell out and close with an end mark, 12-bit or 16-bit |
| DirReader.Directory.Open | kernel/dir.asm:80-112 | the iterator stands before the first sector of any start cluster; of a directory, reading then yields the whole list of entries |
| DirReader.Directory.NextSector | kernel/dir.asm:574-770 | the next sector of the root region or chain, the end, or an unreadable one |
| DirReader.Directory.Read | kernel/dir.asm:281-560 | returns the first entry still to come, described in the caller's buffer, and leaves the rest to come; none exactly at the end or at an unreadable sector, which is passed over; the place on disk is the entry's; astray exactly at an entry without any name behind a space |
| DirReader.YieldsOnce | kernel/dir.asm:281-560 | the entries to come are determined by the position |
| DirReader.Directory.SaveState | kernel/dir.asm:146-181 | takes the scan position |
| DirReader.Directory.RestoreState | kernel/dir.asm:211-270 | whatever ran in between, reading goes on with the entries that lay ahead when the position was saved |
| DirReader.EndStays | kernel/dir.asm:574-770 | a reader out of sectors keeps finding none until its counter comes round |
| BootGeometry.BootDrive.FindShift | boot/krnboot.asm:736-750 | the shift is the lowest bit of the cluster size |
| BootGeometry.BootDrive.SectorsBefore | boot/krnboot.asm:940-957 | the byte-wise subtraction with borrow is the 16-bit difference |
| BootGeometry.BootDrive.Compute | boot/krnboot.asm:720-1010 | the drive-table entry of a partition, or an absent one |
| BootGeometry.ClusterToLba | kernel/dir.asm:783-843 | the shift loop and the three-byte addition give data_lba + (cluster - 2) * 2^shift in 24 bits |
| BootGeometry.AcceptedIff | boot/krnboot.asm:906-1009 | a partition is accepted exactly when its region is not negative and has fewer than 65525 clusters, and max_clust is then the count plus one |
| BootGeometry.SectorInside | kernel/dir.asm:783-843 | every sector of every cluster of an accepted volume lies at its own distance from data_lba, in 24 bits, and inside the partition exactly when that distance is less than what the overhead leaves |
| BootGeometry.AllInsideIff | boot/krnboot.asm:725-1009 | for every accepted volume, all clusters are inside exactly when the last one's end is, counted from the overhead, or there are none |
| BootGeometry.AllInsidePow2Iff | boot/krnboot.asm:940-1009 | with a power of two for a cluster size that is so exactly when the overhead fits 16 bits or there are no clusters |
| BootGeometry.AllDistinctIff | boot/krnboot.asm:736-750 | for every accepted volume, no two cluster sectors coincide exactly when the cluster size is a power of two or there are fewer than two clusters |
| BootGeometry.SoundIff | boot/krnboot.asm:789-904 | an accepted volume meets what the FAT layer needs exactly when it has a FAT, with an entry for each cluster, and its copies end within the 24-bit sector numbers |
| BootGeometry.RootPlace | boot/krnboot.asm:789-880 | the root directory lies behind the FATs as far as 16 bits count them, and the data behind it |
| BootGeometry.RootClearIff | boot/krnboot.asm:789-880 | no root sector lies in a FAT copy exactly when the product of FATs and their size fits 16 bits, or the root has no sector |
| BootGeometry.RootApart | boot/krnboot.asm:856-904 | clusters inside the partition lie behind the root directory |
| BootGeometry.DataClearIff | boot/krnboot.asm:789-904 | of a volume with its clusters inside, no sector of a cluster lies in a FAT copy exactly when the product of FATs and their size fits 16 bits, or there are no clusters |
| BootGeometry.LongOverheadExample | boot/krnboot.asm:940-957 | 65535 reserved sectors put the last clusters behind the partition |
| BootGeometry.ThreeSectorExample | boot/krnboot.asm:736-750 | three sectors to a cluster make clusters overlap and the last one end behind the partition |
| BootGeometry.WrappedProductExample | boot/krnboot.asm:822-829 | two FATs of 32768 sectors: accepted and sound, but the first cluster lies in the FAT |
| BootGeometry.TypeByCount | boot/krnboot.asm:915-918 | the kernel's test of max_clust is the rule of 4085 clusters |
| FormatGeometry.GetFat16Geometry | Format-ElfDosDisk.ps1:161-197 | finds a layout exactly when some cluster size gives a FAT16 volume, and then the smallest such size |
| FormatGeometry.FewerClusters | Format-ElfDosDisk.ps1:172-188 | clusters of twice the size are never more, so giving up early loses nothing |
| FormatGeometry.FatSizeIsLeast | Format-ElfDosDisk.ps1:172-183 | the FAT size is the least with an entry for each cluster the FATs leave room for |
| FormatGeometry.UsableMeans | Format-ElfDosDisk.ps1:161-197 | what is asked of a layout, in numbers |
| FormatGeometry.EntriesFit | Format-ElfDosDisk.ps1:174-183 | the FAT has an entry per cluster; the two reserved ones also fit exactly when the rounding leaves room |
| FormatGeometry.NewFat16Vbr | Format-ElfDosDisk.ps1:199-241 | the boot sector written has every field where the FAT specification has it, and reads back as the geometry it was written from |
| FormatGeometry.FormattedVolumeBoots | Format-ElfDosDisk.ps1:161-241 | every volume laid out is accepted at boot with the computed count, as FAT16, its root directory of 32 sectors behind the two FATs, its clusters apart and inside, both clear of the FATs; it is sound exactly when the reserved entries fit |
| FormatGeometry.ShortFatExample | Format-ElfDosDisk.ps1:174-183 | a volume of 4161 sectors gets a FAT without an entry for its last cluster |
| VolumeLayout.RootSectorsAre | kernel/dir.asm:593-630 | on an accepted volume the iterator reads the root directory sector by sector behind the FATs |
| VolumeLayout.ChainSectorsAre | kernel/dir.asm:783-843 | its sectors of a chain are those of the clusters in order, sector s of cluster c at data_lba + (c - 2) * 2^shift + s |
| VolumeLayout.ToolFindsFats | tools/fat12-proto/fatx.py:14-25 | the volume tool's FAT copies are the kernel's |
| VolumeLayout.ToolFindsDataIff | tools/fat12-proto/fatx.py:14-25 | its root directory is the kernel's exactly when the product of FATs and their size fits 16 bits, its data region when also the root directory fills its last sector |
| VolumeLayout.ToolFindsClusters | tools/fat12-proto/fatx.py:14-25 | there it finds every sector of every cluster where the kernel does |
| VolumeLayout.ToolCountsClusters | tools/fat12-proto/fatx.py:14-25 | and counts as many clusters |
| FatChains.WalkExact | tools/fat12-proto/fatx.py:45-50 | a walk returns a chain exactly when it is the one from its start and at most count + 2 long; a chain never repeats a cluster, and one inside the volume is always returned |
| FatChains.LinkedPath | tools/fat12-proto/fatx.py:96-98 | the entries written for a file make its clusters one chain |
| FatChains.OtherPathKept | tools/fat12-proto/fatx.py:96-98 | a chain that shares no cluster with the file is as before |
| FatChains.FreeFromIs | tools/fat12-proto/fatx.py:95 | the free list has all free clusters of the volume, each once |
| FatChains.FreeAscending | tools/fat12-proto/fatx.py:95 | in ascending order |
| FatToolFiles.Vol.Get | tools/fat12-proto/fatx.py:27-31 | reads an entry of either size |
| FatToolFiles.Vol.Set | tools/fat12-proto/fatx.py:33-41 | writes an entry of either size |
| FatToolFiles.Vol.ChainFrom | tools/fat12-proto/fatx.py:45-50 | the walking loop with its limit |
| FatToolFiles.Vol.Flush | tools/fat12-proto/fatx.py:42-43 | writes every copy of the FAT |
| FatToolFiles.Vol.ReadFile | tools/fat12-proto/fatx.py:85-89 | the clusters of the chain put together, reads behind the end of the file cut short, cut at the size |
| FatToolFiles.Vol.PutRoot | tools/fat12-proto/fatx.py:91-110 | clusters taken, FAT, data, copies and directory slot of a stored file, whose first cluster and size stand in the slot's bytes; also when the root is full or no cluster is free |
| FatToolFiles.FirstSlotIs | tools/fat12-proto/fatx.py:100-103 | the slot used is the first one unused or deleted |
| FatToolFiles.SlotPointsAt | tools/fat12-proto/fatx.py:104-108 | the slot written gives first cluster and size, low bytes first |
| FatToolFiles.StoredReadsBack | tools/fat12-proto/fatx.py:85-110 | on FAT12 the file's chain is the clusters taken, which hold the data as far as they go; it comes back whole exactly when it fits them, that is when as many clusters were free as it needs |
| FatToolFiles.EntryReadsBack | tools/fat12-proto/fatx.py:85-110 | read through the 32 bytes of its directory entry, the file comes back, whole exactly when as many clusters were free as it needs |
| FatToolFiles.StoredBytes | tools/fat12-proto/fatx.py:85-89 | byte i of a chain's k-th cluster c lies at i behind the start of cluster c, the clusters following each other behind the root directory |
| FatToolFiles.FullVolumeExample | tools/fat12-proto/fatx.py:91-110 | of 513 bytes stored on a volume of one cluster the last is lost, and the call succeeds |
| FatToolFiles.OthersKept | tools/fat12-proto/fatx.py:91-110 | every chain in use keeps its clusters and its contents |
| FatToolFiles.ChainEndsIff | tools/fat12-proto/fatx.py:96-98 | the stored chain ends where it should exactly on FAT12 |
| FatToolFiles.WrongEndExample | tools/fat12-proto/fatx.py:96-98 | on an empty FAT16 volume the chain of a one-cluster file runs on into cluster 4095 |
| FatToolFiles.CopiesUpdated | tools/fat12-proto/fatx.py:42-43 | afterwards every FAT copy is the updated one |
| FatToolFiles.ShownAsGiven | tools/fat12-proto/fatx.py:102-109 | the kernel shows a stored file under the name given, unless a part mixes cases |
| KernelSplit.Split | tools/split_kernel.py:147-226 | the image is written exactly when all checks pass, with its three header words and padding |
| KernelSplit.ImageLayout | tools/split_kernel.py:172-226 | the image byte by byte: loader with its counts, highest byte first, volatile bytes, zeroes up to a sector, non-volatile bytes |
| KernelSplit.Loader.LoadSectors | boot/krnboot.asm:391-403 | reads consecutive sectors to consecutive memory, and fails exactly when one cannot be read |
| KernelSplit.Loader.CopyOut | boot/krnboot.asm:344-353 | copies exactly the counted bytes out of the buffer |
| KernelSplit.Loader.LoadNv | boot/krnboot.asm:289-353 | places the non-volatile half and writes nothing else but the buffer; fails exactly when a sector cannot be read |
| KernelSplit.Loader.Boot | boot/krnboot.asm:163-361 | loading a split image restores both regions and writes no address past the last image byte, and boots exactly when the version is right; with the non-volatile half in ROM it loads only the volatile one and boots exactly when the ROM is signed; a volatile half that ends at $4300 or later is read over the loader, which never goes on; a load error is reported exactly when a sector cannot be read |
| KernelSplit.RoundedLoadExample | boot/krnboot.asm:163-174 | a volatile half that ends at $4300 passes all checks, and once loaded the loader's first page is zero |
| KernelSplit.RoundedLinkBootable | tools/split_kernel.py:151-171 | the image of that example passes the checks and fits the memory |
| BatchLines.ReadsAreLinesIff | kernel/batch_mod.asm:181-290 | successive reads give the LF-separated lines without CRs, an unterminated last one included, exactly when every line fits |
| BatchLines.LinesOfWritten | kernel/batch_mod.asm:181-290 | the lines of a text are those it was written from, with either line ending |
| BatchLines.LongLineExample | kernel/batch_mod.asm:197-205 | a line of 126 letters and LF is read as that line and an empty one |
| BatchLines.NeverFewer | kernel/batch_mod.asm:197-205 | too long lines come out as more lines, never fewer |
| BatchScript.Script.ReadLine | kernel/batch_mod.asm:181-290 | one line into the buffer with its NUL, or the end of the script, which closes it |
| BatchScript.Script.Goto | kernel/batch_mod.asm:304-404 | succeeds from any position exactly when a line is the label, and the next line is the one after the first such line; the label may lie in the line buffer itself |
| BatchScript.Script.CopyLabel | kernel/batch_mod.asm:306-327 | the label is copied before its buffer is overwritten, cut at 31 bytes |
| BatchScript.Script.Compare | kernel/batch_mod.asm:352-392 | the comparison is case folded, after leading spaces and a colon, over memory as it stands; of a label without spaces that is whether the line is the label as a whole word |
| BatchScript.InMemory | kernel/batch_mod.asm:352-392 | a label without spaces stops at the line's NUL, so what lies behind it does not matter |
| BatchScript.StaleLabelExample | kernel/batch_mod.asm:352-392 | the label a b is found on the line :a when a b is left behind its NUL |
| BatchScript.GotoInLines | kernel/batch_mod.asm:304-404 | in a script whose lines fit, the same in terms of its lines |
| BatchScript.WordIsLabel | kernel/batch_mod.asm:352-392 | a line with a colon and a word is the label exactly when the words are the same ignoring case: a longer or shorter word is not |
| BatchScript.NoColonNoLabel | kernel/batch_mod.asm:354-360 | a line without a colon in front is no label |

## Left out

- Instruction-level 1802 execution, register clobbering and the stack: routines are modelled by their arguments, results and memory. A loader whose first page was read over is taken not to go on.
- `kernel_drive_invalidate`, the per-drive block copy on a switch (22-byte entries) and the block-device unit byte beyond naming a device in each address.
- Volumes of different drives are taken to lie on disjoint sectors with sound geometry; `SoundIff` says when the boot loader delivers that.
- Reading file contents through the kernel (`kernel/file.asm`), path resolution, creating and removing directory entries: their source is not part of this model.
- LongNames.NameDecoded: characters are the low bytes the kernel keeps; the high bytes of UTF-16 units are zero in the layout modelled.
- The host tool's search of directories by path name, its long-name decoding, and a failing read of the host file.
- FatToolFiles.Vol.PutRoot: names are taken as a base of up to eight and an extension of up to three ASCII bytes, and a file is shorter than 4 GiB.
- The command line of the Markdown reference, which clamps the width to 20 to 250 columns.
- The loader's stack and the top of RAM reported by the BIOS, with the messages that depend on it, and the delay after a write test on ROM; whether the non-volatile region can be written is a constant of the machine.
- Where a reader that went astray at an entry without any name continues, and what it overwrites.
- A directory whose FAT entries cannot be read to the end of its chain, and that at its end the reader finds nothing only until its 8-bit sector counter comes round (`EndStays`).
- Intel HEX output, symbol-table links and all other checks of the build tools.
- Disk I/O, prompts, label and time stamps of the formatter; the serial number and label are parameters.
- BatchScript.Script.Goto: a label with a space in it is excluded, since what it finds depends on bytes left in the line buffer (`StaleLabelExample`); `f_ltrim` is taken to skip spaces only, and reading the script file to succeed.
- Echoing, redirection and nesting of batch scripts.
