# A model of moving ostree commits into container images and back

This project models how the library puts an ostree commit into an OCI image and takes it out again:
the packing of components into layers, the tar streams of the layers, their import, the filtering of
derived layers, the refs under which images are stored and garbage collected, and two algorithms on
content-addressed trees. Each part is proved against what the code and its documentation promise.
`dafny verify dfyconfig.toml` checks everything.

## How the parts fit together

- `RefEscape`, `ImageRef`: the escaping of ref names and the grammar of image references, each a
  printer with its parser.
- `Partitions`, `Folding`, `Packing`, `Statistics`, `PriorBuild`: components go into a bounded number
  of bins, by size and change frequency or by the layout of a previous image; `BinOrder` and
  `EmptyBins` say when the bins are in order and which of them are empty, and `PriorManifest` what
  becomes of a previous image whoever wrote its annotations.
- `Components`, `Chunks`, `ChunkMapping`, `ChunkSizes`: sizes of components, the walk that collects the
  files of a commit, the moves that distribute them over chunks, and the sizes of these.
- `Paths`, `Objects`, `ObjectPaths`, `TarStream`: paths, object values with their checksums, names of
  objects in a tar stream, and tar entries.
- `TarExport`, `TarImport`, `RoundTrip`: the writer with its four de-duplication sets, the importer
  with its xattr cache and its one-slot register, and the proof that the second undoes the first.
  `LayerForm` says how a layer is laid out, `XattrForms` that the importer's three ways of reading xattrs
  agree.
- `Extraction`, `Checkout`, `ImageCheckout`: what unpacking tar entries gives, for a chunk layer, the final
  layer, and all layers of an image: the checkout of the commit.
- `Reinject`: replacing the detached metadata inside a tar stream.
- `PathMaps`, `TarFilter`: path normalisation and the streaming rewrite of derived layers.
- `ManifestLayout`, `Encapsulate`, `ImageLayers`: which layers of an image are which, the whole way
  from a commit to chunks, to layers, to a repository, and back to the same chunks, and when the image
  that was written can be read back.
- `StoreRefs`, `LayerGc`, `LayerSweep`, `ImageStore`: the refs of stored images as a transition
  system with an invariant that holds after every single ref write.
- `Diff`, `Ima`: the checksum-pruned tree comparison and the memoised rewriting of a commit.
- `Outcomes`, `Text`, `Seqs`, `Sorting`: shared vocabulary.

Code that updates state in place is a class or a method with loops (`Chunk`, `Chunking`, `Importer`,
`OstreeTarWriter`, `ImageStore`, `FileTreeDiff`, `CommitRewriter`); its `ensures` clauses tie the new
state to functions of the old state, and the lemmas are about those functions.

## What is assumed

- Checksums and the encodings of objects are function parameters. Digests are 64 lower-case
  hexadecimal digits and encodings can be decoded. That two different objects do not share a digest is
  required only of the objects at hand; `Ima` asks for an injective hash.
- Thresholds of the size and frequency statistics are arbitrary reals (`Statistics` relates those for
  sizes to the components, in exact arithmetic); the 60% share of bins for large
  components is any function that stays below its argument.
- Fetching a layer is a parameter that says which layers can be fetched and what they give. Signing
  is a parameter that may answer differently each time it is asked.
- The files of a commit that is written and imported do not lie below `/sysroot/ostree/repo`, which is so
  with no `/sysroot` or an empty one (`Encapsulate.EmptySysrootClear`).
- Unpacking a tar stream takes the entries in order, and a hard link gets what is at its target then
  (`Extraction`). What is said of checkouts asks that no two files or directories of a commit share a place
  (`ImageCheckout.ImageCommitPlaces` gives commits for which that holds).
- Refs are a map from names to commits; listing under a prefix gives the names below `prefix/`.

## Where the code differs from what is said about it

- Folding excess bins reinserts a merged bin after its old successor, so it need not keep the order by
  change frequency (lib/src/chunking.rs:745-771). A whole pass moves one bin before all the bins it
  merges (`Folding.PassIsRotation`). `Folding.PassOrder` says exactly when a pass keeps the order,
  `Folding.FoldOrder` and `Folding.PairsFoldOrder` when the fold does, `BinOrder.PackingOrder` when any
  packing by size does, and `BinOrder.PackingBreaksOrder` is a packing that does not.
- Partitioning and the subtraction after it stop the program for some inputs (lib/src/chunking.rs:494,
  lib/src/chunking.rs:706). `Packing.BasicPacking` says for exactly which, and
  `Statistics.EqualSizesStop` gives a family of them.
- A bucket cut into bins of no components starts with an empty bin (lib/src/chunking.rs:723-736), and no
  fold gets rid of all of these. Two empty chunks are one and the same layer, and an image with a second
  empty chunk at its end is refused, or misread if their annotations differ. `ImageLayers.ImageParses`
  says exactly when, `ImageLayers.FirstImageParses` and `ImageLayers.RebuiltImageParses` say so in terms
  of what is packed, and `ImageLayers.RemovedNotRead` is an image that cannot be read back.
- The exporter's check for an existing `var/tmp` never succeeds, because its paths start with `./`
  (lib/src/tar/export.rs:497-501), so a commit that has the directory gets it twice. See
  `TarExport.VarTmpTwice`.
- For hard links the filter strips the leading slash from the link's own path instead of its target
  (lib/src/tar/write.rs:308), so a target with a leading slash is not recognised.
  `TarFilter.TargetRecognised` says exactly when an object is used, and `TarFilter.AbsoluteTargetLost`
  when the link is lost, on any stream whose output paths differ.
- A rewritten hard link is written to its path as it stands, without the normalisation that every other
  entry goes through (lib/src/tar/write.rs:294-305). See `TarFilter.WrittenSettled` and
  `TarFilter.LinkNotSettled`.
- Hard link targets follow the move of `etc` but not that of `var`. See `PathMaps.LinkTargetFollows`.
- Filtered paths are meant to be counted by their top-level directory; below an excluded one the child's
  name is counted (lib/src/tar/write.rs:192-224). See `PathMaps.FilteredName`.
- Unescaping reads hexadecimal digits of either case, so different refs can stand for one string. Layer
  collection is right if no two layer refs stand for one referenced digest, which holds for refs that
  the store wrote. See `RefEscape.UnescapeHasAliases`, `LayerGc.KeepsAllReferenced` and
  `LayerGc.AliasLosesLayer`.
- A registry reference without a name can be parsed but not printed and parsed again. See
  `ImageRef.ParsedNeedNotReparse`.
- The final layer leaves out `/sysroot`, so directory objects that occur only there are lost. See
  `RoundTrip.ChunkedRoundTrip` and `RoundTrip.SysrootLost`.

## Model

| member | source | states |
|---|---|---|
| RefEscape.EscapeForRef | lib/src/refescape.rs:16-54 | the character loop computes the escaped form, and fails exactly for the empty string and strings with NUL |
| RefEscape.UnescapeForRef | lib/src/refescape.rs:82-125 | the buffered character loop computes the unescaped form, with its failures |
| RefEscape.RoundTrip | lib/src/refescape.rs:16-125 | unescaping undoes escaping for every non-empty NUL-free string |
| RefEscape.EscapeInjective | lib/src/refescape.rs:16-54 | different strings have different escaped forms |
| RefEscape.EscapeIsValidRef | lib/src/refescape.rs:16-54 | an escaped form has only alphanumerics, `-`, `_`, `/` and no empty path component |
| RefEscape.StandsForItself | lib/src/refescape.rs:21-52 | a string is its own escaped form if and only if it has only alphanumerics, `-`, and slashes that follow an alphanumeric and are not last |
| RefEscape.PrefixedRoundTrip | lib/src/refescape.rs:77-140 | the prefixed forms undo each other too |
| RefEscape.UnescapeHasAliases | lib/src/refescape.rs:82-125 | a string with two different names that unescape to it, only one of them an output of escaping |
| ImageRef.ImageRoundTrip | lib/src/container/mod.rs:143-164 | printing an image reference can be undone if and only if it has a name or is a registry reference, and fails to parse otherwise |
| ImageRef.ParsedImageIsNamed | lib/src/container/mod.rs:143-164 | whatever parses survives printing and parsing |
| ImageRef.PrintImageInjective | lib/src/container/mod.rs:251-270 | different references print differently |
| ImageRef.SignatureRoundTrip | lib/src/container/mod.rs:174-187 | signature policies survive printing and parsing |
| ImageRef.OstreeImageRoundTrip | lib/src/container/mod.rs:197-304 | an ostree reference survives printing and parsing if and only if its image has a name and its remote no colon |
| ImageRef.RemoteShorthand | lib/src/container/mod.rs:215-239 | the short form with a remote for a registry reads as the long one: the named registry image, to be verified against that remote |
| ImageRef.UnverifiedShorthand | lib/src/container/mod.rs:210-214 | and so does the short form without verification |
| ImageRef.PolicyIsSaid | lib/src/container/mod.rs:197-241 | the policy of any reference that parses is the one its first word says, and a remote is the word after it |
| ImageRef.ParsedNeedNotReparse | lib/src/container/mod.rs:197-241 | an ostree reference that parses and whose printed form does not |
| Partitions.GetPartitions | lib/src/chunking.rs:433-533 | the two classification loops give the kept large components, the small ones and nine frequency-sorted buckets, and nothing exactly if no component is medium or spilled |
| Partitions.PartitionCovers | lib/src/chunking.rs:449-533 | every component is in exactly one partition, as often as it occurs |
| Partitions.PartitionShape | lib/src/chunking.rs:449-479 | for input of descending size the large partition is a bounded prefix, the small one a suffix, and the buckets hold the contiguous middle |
| Partitions.BucketOrder | lib/src/chunking.rs:482-533 | buckets are sorted by frequency, and a component of a higher frequency class changes strictly more often than one of a lower class |
| Partitions.PartitionMeaning | lib/src/chunking.rs:449-523 | a component in a partition has the size and frequency that the name of the partition says, and a large one is in a bucket only if the allowed number of large ones is kept |
| Folding.FoldPass | lib/src/chunking.rs:750-768 | one reversed pass of merges computes the pass, keeps the components and all bins before its range, removes at least one bin, and never goes below the limit; no index is out of bounds |
| Folding.PassIsRotation | lib/src/chunking.rs:750-768 | a pass moves the bin after its first merge before all the bins it merges, which stay in order |
| Folding.FoldBins | lib/src/chunking.rs:745-771 | repeated passes end with exactly the allowed number of bins and the same components, the leading bins untouched |
| Folding.PassOrder | lib/src/chunking.rs:750-768 | a pass keeps the order by change frequency if and only if the bin it moves changes at least as often as all it moves past |
| Folding.PassOneClass | lib/src/chunking.rs:750-768 | over bins that each hold something to order: if and only if all of these are of one frequency class |
| Folding.FoldOrder | lib/src/chunking.rs:745-771 | over such bins the whole fold keeps the order if and only if everything between two positions, computed from the number of bins, is of one class |
| Folding.PairsFoldOrder | lib/src/chunking.rs:745-771 | over bins of which, of two neighbours, one holds something to order: if and only if the first pass keeps the order and the further ones move one class only |
| BinOrder.UnfoldedOrder | lib/src/chunking.rs:711-743 | the bins that the fold receives run from high to low change frequency after the kept components |
| BinOrder.PackingOrder | lib/src/chunking.rs:703-771 | the bins packed by size keep that order if and only if there is nothing to fold, or the first pass puts no bin before one that changes more often and further passes move one class only; with room for a component in each bin, if and only if the whole fold moves one class only |
| BinOrder.PackingBreaksOrder | lib/src/chunking.rs:649-789 | four components that are packed out of order |
| Packing.AppendBucket | lib/src/chunking.rs:723-736 | the loop with its flushes cuts a bucket into bins of bounded length, nothing lost, in order |
| Packing.CutBins | lib/src/chunking.rs:723-736 | one of them is empty if and only if no component is allowed in a bin and the bucket is not empty |
| Packing.AssignBins | lib/src/chunking.rs:711-738 | bins hold the partitions in order, each kept large component alone in a leading bin |
| Packing.BasicPacking | lib/src/chunking.rs:649-789 | fails exactly below four bins, stops exactly when partitioning or the subtraction cannot be done, and otherwise returns a permutation of the input in at most the allowed bins, each kept large component alone in its leading bin and an empty bin last |
| Packing.MostFrequentTogether | lib/src/chunking.rs:677-789 | the components of frequency 0xFFFFFFFF, and no others, share the bin before the last, unless each component gets its own |
| Packing.LargeAlone | lib/src/chunking.rs:683-717 | the number of large components alone in front is the smaller of how many there are and their share of the bins, two or three of which are set aside |
| EmptyBins.NoBinEmpty | lib/src/chunking.rs:706-771 | no bin by size is empty if and only if there is room for a component in each, however much is folded |
| EmptyBins.OnlyReservedEmpty | lib/src/chunking.rs:649-789 | the last bin of the packing is the only empty one if and only if nothing had to be packed by size or there was room for a component in each bin |
| Statistics.LargeStop | lib/src/chunking.rs:486-497 | the packing stops if all components are large and there are bins enough for them |
| Statistics.EqualSizesStop | lib/src/statistics.rs:29-57 | which is so if they are all of one size, since the median deviation is then zero |
| Statistics.Medians | lib/src/statistics.rs:29-57 | for sizes in descending order both statistics are medians: half of the sizes, and half of the distances from their median, are on either side |
| PriorBuild.PackWithPriorBuild | lib/src/chunking.rs:552-632 | the loops over the old layers compute the new bins, or fail on a missing annotation, or stop on a failed assertion |
| PriorBuild.AnnotationRoundTrip | lib/src/container/encapsulate.rs:139-152 | sorted, joined and split again, the names of a bin come back |
| PriorBuild.NextBuild | lib/src/chunking.rs:552-632 | building on any previous packing succeeds, packs exactly the new components, keeps every package in its bin and puts new ones in the last bin |
| PriorBuild.RunIsStable | lib/src/chunking.rs:552-632 | over any sequence of builds the number of bins never changes and each build is a stable permutation of its components |
| PriorBuild.RunContinues | lib/src/chunking.rs:626-630 | no assertion fires whatever the next build is |
| PriorBuild.PackageKeepsBin | lib/src/chunking.rs:583-606 | a package present throughout keeps its bin over any number of builds |
| PriorBuild.EmptyAfterBuild | lib/src/chunking.rs:583-606 | a bin is empty after a build if and only if none of its packages is left and, for the last bin, none is new |
| PriorManifest.AnyManifest | lib/src/chunking.rs:552-632 | for components with different names and the annotations of any image: fails if and only if one is missing after the first layer, succeeds if and only if there are layers, not too many, and no name in use is listed twice; each component is then placed once, where it was listed or in the last bin |
| PriorManifest.PlacedCount | lib/src/chunking.rs:626-630 | the number of components placed, which the assertion compares, for any names |
| Components.ComputeSizes | lib/src/chunking.rs:87-112 | succeeds exactly if every object and every owner is known; one component for each owner with the total of its objects, by descending size and then identifier |
| Chunks.Chunk.MoveObj | lib/src/chunking.rs:219-232 | moves one object if it is there, with both recorded sizes still the sums of their objects |
| Chunks.Chunk.MoveAll | lib/src/chunking.rs:353-357 | moves exactly the listed objects that are there |
| Chunks.Chunk.AddFile | lib/src/chunking.rs:178-193 | records one more path; a size is counted once for each distinct object |
| Chunks.Chunk.Generate | lib/src/chunking.rs:165-209 | the walk records every file object of the tree with its size and all its paths, and nothing else |
| Chunks.OccurrenceLeads | lib/src/chunking.rs:165-209 | a file is recorded with a path if and only if the names of the path lead to it in the tree |
| ChunkMapping.PartsCover | lib/src/chunking.rs:351-361 | whatever is claimed, the chunks and the remainder hold every object once, with size and paths unchanged |
| ChunkMapping.AllClaimed | lib/src/chunking.rs:311-366 | if the bins hold exactly the owners, no lookup fails, and the remainder ends empty if and only if every object has an owner |
| ChunkMapping.MappingCompletes | lib/src/chunking.rs:292-371 | the same for sizes computed from the ownership map, and each object is in the chunk of its owner's bin |
| ChunkSizes.ChunkSizes | lib/src/chunking.rs:87-112 | a component is as large as the distinct objects it owns together, and each chunk as large as the components of its bin |
| ChunkMapping.Pack | lib/src/chunking.rs:649-662 | the choice between the two packings, with the outcome of each |
| ChunkMapping.Invert | lib/src/chunking.rs:311-315 | the inverted ownership map lists each owner's objects in order |
| ChunkMapping.Chunking.constructor | lib/src/chunking.rs:237-270 | everything starts in the remainder, with exactly the commit's files |
| ChunkMapping.Chunking.TakeBins | lib/src/chunking.rs:328-363 | one chunk for each bin, holding what the bin's components own and no earlier bin took; stops exactly at a component without objects |
| ChunkMapping.Chunking.ProcessMapping | lib/src/chunking.rs:292-371 | the whole mapping: when it fails or stops, and the contents, packages and empty remainder it leaves, with the cover intact |
| ChunkMapping.FromMapping | lib/src/chunking.rs:273-283 | with computed sizes it stops exactly if the packing does or work is left, and for a packing that holds each component once, work is left exactly if an object has no owner; each object is then in its owner's chunk |
| ChunkMapping.PriorPermutes | lib/src/chunking.rs:552-632 | a build on a previous image is such a packing |
| ChunkMapping.CoverRebuilt | lib/src/container/store.rs:1268-1293 | the chunks and the remainder are determined by the checksums in each chunk |
| ChunkMapping.Chunking.FromLayerCommitted | lib/src/container/store.rs:1268-1293 | rebuilds one chunk from the names in a stored layer, keeping the cover; fails exactly on a name that is no checksum |
| ObjectPaths.ParsePrinted | lib/src/tar/import.rs:122-155 | the parser reads back checksum and suffix of every object path the exporter prints |
| ObjectPaths.ParsePrintedKind | lib/src/tar/import.rs:216-223 | and the kind of a metadata object |
| TarExport.OstreeTarWriter.AppendContentObject | lib/src/tar/export.rs:336-422 | appends the xattrs once, then the link and the file entry, each object once |
| TarExport.OstreeTarWriter.WriteChunkItems | lib/src/tar/export.rs:598-611 | writes a chunk's objects and their hard links |
| TarExport.OstreeTarWriter.WriteDirtree | lib/src/tar/export.rs:464-532 | the recursive directory walk writes what its specification lists |
| TarExport.OstreeTarWriter.WriteCommitStructure | lib/src/tar/export.rs:247-286 | a commit stream in order: root, repository structure, commit, detached metadata, directories, `var/tmp` |
| TarExport.VarTmpAlwaysWritten | lib/src/tar/export.rs:497-556 | the synthesised `var/tmp` ends every commit stream |
| TarExport.VarTmpTwice | lib/src/tar/export.rs:497-556 | the stream has one directory entry for `var/tmp` if and only if the commit has no such directory |
| TarExport.FinalLayout | lib/src/tar/export.rs:630-644 | the final layer is a fixed preamble, the commit object, the optional detached metadata, and a rest that does not depend on it |
| LayerForm.ChunkForm | lib/src/tar/export.rs:196-245 | a chunk layer has each object once, and each entry of the repository after the directory it is in |
| LayerForm.FinalForm | lib/src/tar/export.rs:247-305 | and so has the final layer, with its commit objects and directory metadata |
| TarImport.Importer.ImportObjects | lib/src/tar/import.rs:593-621 | the entry loop computes the import of the whole stream, or fails where it fails |
| TarImport.Importer.ImportCommitStream | lib/src/tar/import.rs:623-739 | commit mode: the first two relevant entries, the checks for a remote, then the rest |
| TarImport.RemoteVouches | lib/src/tar/import.rs:652-699 | whatever the stream: what is imported for a remote is a commit of the stream whose own detached metadata, from an entry under its checksum, passes the check of that remote |
| TarImport.CommitImported | lib/src/tar/import.rs:636-739 | the commit that an import returns comes from an entry with its own checksum, and is in the repository |
| TarImport.ImportCommitAt | lib/src/tar/import.rs:194-214 | entries before the first two relevant ones do not matter |
| TarImport.FilesAreLinked | lib/src/tar/import.rs:349-439 | in every accepted run each file entry follows a link entry for the same checksum with no other link or file between |
| TarImport.CacheStaysSound | lib/src/tar/import.rs:555-590 | every cached xattr value hashes to its key, on any stream |
| TarImport.ObjectSetTracks | lib/src/tar/import.rs:396-439 | in object-set mode the tracked set is the set of file checksums seen, without duplicates or metadata objects, and all are stored |
| TarImport.EverythingNamed | lib/src/tar/import.rs:225-439 | in any accepted stream every object entry brings an object of its kind with the checksum in its name, nothing else enters, and no oversized entry is read |
| XattrForms.FormsAgree | lib/src/tar/import.rs:441-590 | xattrs by link, inline, or in the old separate directory: from any state the three do the same |
| RoundTrip.ChunkLayer | lib/src/tar/export.rs:614-627 | a chunk layer imports without error, adds exactly its files with their xattrs, and tracks exactly their checksums |
| RoundTrip.FinalLayer | lib/src/tar/export.rs:630-644 | the final layer imports without error and adds exactly the commit, its carried directories and the remainder |
| RoundTrip.FinalLayerVerified | lib/src/tar/import.rs:652-699 | for a remote it imports if and only if the commit has detached metadata that passes the check, and then as it does without one |
| RoundTrip.ChunkedRoundTrip | lib/src/tar/import.rs:593-739 | importing all chunk layers and the final layer never fails, returns the commit, and leaves exactly its reachable objects if and only if every directory object below `/sysroot` occurs elsewhere |
| RoundTrip.SysrootAbsentOrEmpty | lib/src/tar/export.rs:514-517 | with no `/sysroot` or an empty one, this holds if and only if there is none or an empty directory occurs elsewhere |
| RoundTrip.SysrootLost | lib/src/tar/export.rs:514-517 | and fails for a commit with nothing but an empty `/sysroot` |
| Checkout.ChunkCheckout | lib/src/tar/export.rs:591-627 | outside the repository, a chunk layer extracts to exactly the files of the chunk, each at its path with its owner, mode and contents, and the two directories above the repository |
| Checkout.FinalCheckout | lib/src/tar/export.rs:630-644 | the final layer extracts to the directories of the commit, `/sysroot`, `/var/tmp` and the remaining files, and nothing else |
| Checkout.DirWritten | lib/src/tar/export.rs:464-532 | the directories written are exactly those that the names of a path lead to, apart from `/sysroot` and what is below |
| ImageCheckout.CommitCheckout | lib/src/container/encapsulate.rs:84-161 | extracting all layers of any chunks that cover a commit gives each file of the commit at its path, and elsewhere its directories |
| ImageCheckout.ImageCommitPlaces | lib/src/tar/export.rs:591-594 | for commits with names used once, `/etc` only in `/usr`, and nothing of their own in `/sysroot`, no two files or directories get one place |
| Reinject.ReinjectDetachedMetadata | lib/src/tar/export.rs:649-708 | the entry loop replaces the entry after the commit object, or inserts one, and fails where the parsers fail |
| Reinject.CommitEntryKind | lib/src/tar/export.rs:660-679 | the assertion that the entry found is a commit object holds |
| Reinject.LastWriterWins | lib/src/tar/export.rs:649-708 | a second replacement undoes the first on any stream if and only if the first injected metadata, or dropped none, or dropped an entry followed by an object of another kind |
| Reinject.ReplaceIsExport | lib/src/tar/export.rs:288-305 | replacing in an exported stream gives the stream exported with the new metadata |
| Reinject.ReplacedImport | lib/src/tar/import.rs:636-736 | importing the replaced stream differs from importing the original in the detached metadata only |
| PathMaps.NormalizeValidatePath | lib/src/tar/write.rs:171-239 | the component loop computes the normal form, the filtered name or the failure |
| PathMaps.ComponentsWellFormed | lib/src/tar/write.rs:171-192 | every path read from a string has `.` and `/` in front only, as the other members take paths to be |
| PathMaps.NormalizeFixed | lib/src/tar/write.rs:171-239 | a kept path has no `..` and normalises to itself |
| PathMaps.WherePathsGo | lib/src/tar/write.rs:171-239 | paths below `usr` stay, those below `etc` go to `usr/etc`, and those below `var` stay or go to the factory directory |
| PathMaps.WhereOthersGo | lib/src/tar/write.rs:171-239 | paths below any other directory that is not excluded are kept or filtered under its name, as configured |
| PathMaps.UsrRoundTrip | lib/src/tar/export.rs:48-63 | a path below `usr` comes back through export mapping and normalisation |
| PathMaps.LinkTargetFollows | lib/src/tar/write.rs:69-76 | link targets follow their moved paths if and only if the path is not below a remapped `var` |
| PathMaps.FilteredName | lib/src/tar/write.rs:192-224 | a filtered path is counted under its top-level directory if and only if that is not an excluded one or the child has the same name |
| PathMaps.ExcludedChildName | lib/src/tar/write.rs:192-224 | every path below an excluded directory is filtered under the child's name |
| TarFilter.FilterTar | lib/src/tar/write.rs:250-348 | the entry loop computes the filtered stream and the counts, and fails where normalisation does |
| TarFilter.MapsRefineHistory | lib/src/tar/write.rs:276-315 | on any stream the maps say exactly what the stream so far says: the latest changed object at a path, and the first link since |
| TarFilter.LinkRewritten | lib/src/tar/write.rs:286-315 | the first link to a changed object carries its bytes, later ones link to the first, links without an object are dropped |
| TarFilter.UnchangedStream | lib/src/tar/write.rs:272-345 | a stream of entries without a time is only normalised, and fails if and only if a path cannot be |
| TarFilter.ChangedHeldBack | lib/src/tar/write.rs:276-302 | a file of the repository with a time is written nowhere when it is met |
| TarFilter.ChangedLinkLeaves | lib/src/tar/write.rs:303-329 | a hard link with a time into the repository leaves at most one entry, at its own path, that does not lead there |
| TarFilter.CanonicalOutside | lib/src/tar/write.rs:286-315 | no rewritten link targets the object store |
| TarFilter.LinksResolve | lib/src/tar/write.rs:266-329 | after extraction, every changed link whose target names an earlier changed object resolves to that object's bytes |
| TarFilter.OrdinaryCopied | lib/src/tar/write.rs:44-80 | an ordinary entry keeps its owner, mode, time and contents |
| TarFilter.FileExtracted | lib/src/tar/write.rs:330-345 | after extraction every ordinary file and symbolic link is found as it was at its normal path |
| TarFilter.OrdinaryLink | lib/src/tar/write.rs:69-76 | an ordinary hard link to a file before it is extracted as that file if and only if its target is not below a remapped `var`, or a file just like it was written where the target says |
| TarFilter.WrittenOnce | lib/src/tar/write.rs:286-306 | of the entries written, exactly one carries an object's bytes if any link to it follows before the next object at its path, and none otherwise |
| TarFilter.WrittenSettled | lib/src/tar/write.rs:286-329 | the path of an entry written is normal if and only if the entry is no rewritten link or its path was normal already |
| TarFilter.LinkNotSettled | lib/src/tar/write.rs:294-305 | an object and a link to it in an excluded directory: the link is written there, with the object's bytes, though the path is not normal |
| TarFilter.EntriesAccounted | lib/src/tar/write.rs:266-329 | every entry is written, counted as filtered, or is a kept-back object or a link without one |
| TarFilter.TargetRecognised | lib/src/tar/write.rs:286-315 | a changed link that names a kept-back object uses it if and only if its target has no leading slash |
| TarFilter.AbsoluteTargetLost | lib/src/tar/write.rs:286-329 | in any stream whose output paths differ, a link to an earlier changed object exists after extraction if and only if its target has no leading slash or something else was written before at the object's path |
| ManifestLayout.LayerFromDiffId | lib/src/container/store.rs:355-373 | succeeds exactly if the diff id is among those that have a layer |
| ManifestLayout.ParseManifestLayout | lib/src/container/store.rs:376-420 | succeeds exactly if the labelled layer exists and occurs once, and splits the layers there |
| ManifestLayout.LayoutOrder | lib/src/container/store.rs:237-241 | all layers of a parsed layout are those of the manifest, and in its order if and only if the first layer is not repeated up to the labelled one |
| ManifestLayout.ExportChunked | lib/src/container/encapsulate.rs:107-161 | commit layer first, chunks after it, diff ids alongside, the label on the last of them |
| ManifestLayout.LayoutRecovered | lib/src/container/store.rs:376-420 | an exported image, with layers added on top or not, is read back as it was written if and only if the label names no earlier layer, the layer it names occurs once, and the commit layer does not occur again up to there |
| ManifestLayout.AllDifferent | lib/src/container/store.rs:376-420 | which holds if all layers and diff ids differ |
| ImageLayers.WriteImage | lib/src/container/encapsulate.rs:107-161 | the layers written for the commit and the chunks, with their digests, diff ids and annotations |
| ImageLayers.ImageParses | lib/src/container/store.rs:376-420 | with digests that tell layers apart, an exported image is read back as it was written if and only if its last chunk is not empty or the only empty one; otherwise it is refused if the first empty chunk has the annotation of another, and misread if not |
| ImageLayers.PackedImageRead | lib/src/container/encapsulate.rs:118-159 | for the image of a packing: if and only if the components of the last bin own something of the commit, or those of all others do |
| ImageLayers.PackedImageParses | lib/src/container/encapsulate.rs:118-159 | if the components own nothing else, it can be read back if and only if the last bin is not empty or the only empty one |
| ImageLayers.FirstImageParses | lib/src/chunking.rs:649-789 | for a packing without a previous image: if and only if nothing had to be packed by size or there was room for a component in each bin |
| ImageLayers.RebuiltImageParses | lib/src/chunking.rs:552-632 | for a build on a previous image: if and only if the last bin, or each of the others, keeps or gets a package |
| ImageLayers.RemovedPackage | lib/src/chunking.rs:552-632 | a build with a second empty bin at its end |
| ImageLayers.RemovedNotRead | lib/src/container/store.rs:376-420 | whose image cannot be read back |
| Encapsulate.CoverIsComplete | lib/src/container/encapsulate.rs:84-103 | the written chunks of any cover hold exactly the commit's files |
| Encapsulate.EncapsulateRoundTrip | lib/src/container/encapsulate.rs:107-161 | chunking, exporting and importing a commit gives the commit back |
| Encapsulate.EmptySysrootClear | lib/src/tar/export.rs:598-611 | with no `/sysroot` or an empty one, no path of the commit is taken for one of the repository's own objects |
| Encapsulate.EmptySysrootRoundTrip | lib/src/container/encapsulate.rs:84-161 | such a commit can always be written and imported, and comes back whole if and only if there is no `/sysroot` or an empty directory occurs elsewhere |
| Encapsulate.LayerNames | lib/src/tar/import.rs:758-786 | the names stored for an imported chunk layer are the checksums of the chunk |
| Encapsulate.ReexportRebuilds | lib/src/container/store.rs:1268-1311 | replaying the stored layers of an import rebuilds the same objects and paths, chunk by chunk |
| Encapsulate.Reexport | lib/src/container/store.rs:1296-1311 | the replay loop, which fails exactly on a stored name that is no checksum |
| Encapsulate.ThereAndBack | lib/src/container/store.rs:1296-1311 | any chunks that cover a commit can be written, imported, and rebuilt |
| Encapsulate.WholeWay | lib/src/container/encapsulate.rs:84-161 | from the mapping of a commit through its layers and their import back to the same chunks, whatever the packing |
| StoreRefs.KindsApart | lib/src/container/store.rs:38-62 | layer, image and deployment refs do not overlap |
| StoreRefs.LayerRefReads | lib/src/container/store.rs:65-72 | the digest of a layer ref is read back |
| StoreRefs.ImageRefReads | lib/src/container/store.rs:1064-1074 | printed, escaped, listed, unescaped and parsed, an image comes back as itself if it has a name and is refused otherwise |
| StoreRefs.ImageRefInjective | lib/src/container/store.rs:75-77 | different images have different refs |
| StoreRefs.SafeQuery | lib/src/container/store.rs:1156-1170 | in a safe state the query of a stored image finds its base: what the ref of its first layer points to |
| StoreRefs.LayerWriteSafe | lib/src/container/store.rs:733-739 | writing a layer ref keeps the invariant |
| StoreRefs.ImageWriteSafe | lib/src/container/store.rs:1027-1030 | writing an image ref keeps it if all its layers are there |
| StoreRefs.LayerRemovalSafe | lib/src/container/store.rs:1528-1529 | deleting a layer ref keeps it if no image needs that layer |
| StoreRefs.ImageRemovalSafe | lib/src/container/store.rs:1589-1598 | deleting an image ref keeps it |
| LayerGc.GcExact | lib/src/container/store.rs:1491-1533 | with refs written by the store, collection leaves exactly the layer refs that an image or deployment manifest names |
| LayerGc.GcKeepsHeld | lib/src/container/store.rs:1440-1533 | in a safe state the layers kept are exactly those in the manifest of a commit that a ref below one of the five image and deployment prefixes points to |
| LayerGc.GcIdempotent | lib/src/container/store.rs:1491-1533 | collecting again removes nothing |
| LayerGc.KeepsAllReferenced | lib/src/container/store.rs:1522-1529 | for any refs, no referenced layer ref is lost if and only if no two refs stand for one referenced digest |
| LayerGc.AliasLosesLayer | lib/src/container/store.rs:1522-1529 | refs for which the collector deletes a layer that an image needs |
| LayerGc.SafeReadable | lib/src/container/store.rs:1491-1510 | in a safe state collection fails exactly for an image stored without a name or a damaged deployment commit |
| LayerSweep.DropSafe | lib/src/container/store.rs:1522-1529 | whatever the order of the refs, no deletion breaks the invariant |
| ImageStore.ImageStore.ReferencedLayers | lib/src/container/store.rs:1440-1514 | gathers exactly the digests that image and deployment manifests name, or fails if one cannot be read |
| ImageStore.ImageStore.GcImageLayers | lib/src/container/store.rs:1491-1533 | for any refs: when it fails, what it keeps and deletes, and the number deleted; in a safe store exactly the layers stay that the commit of an image, deployment or base ref lists, and every intermediate state is safe |
| ImageStore.FetchAllWrites | lib/src/container/store.rs:709-752 | fetching writes refs for exactly the layers that were missing |
| ImageStore.ImageStore.FetchLayers | lib/src/container/store.rs:709-752 | the fetch loop, which fails exactly if a missing layer cannot be fetched |
| ImageStore.ImageStore.Import | lib/src/container/store.rs:838-1050 | preparation and import: the exact refs written, when it fails, that the closing query cannot, and that after collection the image and all layers of its manifest are there, as found or as fetched |
| ImageStore.ImageStore.Copy | lib/src/container/store.rs:1205-1250 | succeeds exactly if the source has the image and all its layers; then their refs are the source's and no other ref changed, the image ref written last |
| ImageStore.ImageStore.RemoveImage | lib/src/container/store.rs:1589-1599 | removes exactly that image and says whether it was there |
| ImageStore.ImageStore.RemoveImages | lib/src/container/store.rs:1606-1625 | removes all that are there, and succeeds exactly if none is missing and none is listed twice |
| ImageStore.ParseOrigins | lib/src/container/deploy.rs:134-167 | the images named by deployment origins, or a failure if one does not parse |
| ImageStore.DeployedIsNamed | lib/src/container/deploy.rs:134-167 | an image counts as deployed if and only if some origin parses to it |
| ImageStore.ImageStore.RemoveUndeployedImages | lib/src/container/deploy.rs:153-177 | removes and returns exactly the images that no origin names |
| ImageStore.ImageStore.Prune | lib/src/container/deploy.rs:200-211 | when it fails; otherwise the surviving images are exactly those that a deployment origin names, the surviving layers exactly those that the commit of a surviving ref lists, with both counts |
| ImageStore.ImageStore.Run | lib/src/container/store.rs:693-1050 | over any sequence of imports, copies, removals, collections and prunes, and after every ref write in it, each image ref points to a merge commit all of whose layers have refs |
| Diff.FileTreeDiff.DiffRecurse | lib/src/diff.rs:75-149 | the pruned recursion adds to the six sets exactly what a walk that never prunes finds |
| Diff.WalkMeaning | lib/src/diff.rs:75-149 | which is, path by path, where the entries differ below directories that both sides have |
| Diff.EmptyIffEqual | lib/src/diff.rs:75-149 | all six sets are empty if and only if the trees agree below the root |
| Diff.SwapArguments | lib/src/diff.rs:75-149 | swapping the trees swaps added with removed and keeps what changed |
| Diff.Compare | lib/src/diff.rs:153-180 | the comparison of two trees as a whole, with what membership in each of the six sets says about the entries at a path |
| Ima.CommitRewriter.MapFile | lib/src/ima.rs:154-185 | the signed object has the owner, mode and contents of the original and all its xattrs but the signature, which is new; nothing is signed if and only if it is a link or, without overwriting, signed already |
| Ima.CommitRewriter.MapDirtree | lib/src/ima.rs:188-241 | the memoised traversal is a map over the tree with one function on file checksums, so equal files get equal results though signing need not repeat itself |
| Ima.CommitRewriter.TreeIsMapped | lib/src/ima.rs:188-241 | for each file of the tree this is the file itself or its signed object, with everything but the signature kept |
| Ima.CommitRewriter.MapCommit | lib/src/ima.rs:245-274 | the commit with only its root tree mapped, each file of it to itself or to its signed object |
| Ima.MapKeepsShape | lib/src/ima.rs:188-241 | names, order, structure and directory metadata are kept |
| Ima.SignTwice | lib/src/ima.rs:154-185 | without overwriting, signing a signed commit again returns the same commit |

## Left out

- Fetching, decompression, the image proxy, progress reports and asynchronous tasks.
- libostree itself: GVariant bytes, hashing, transactions, pruning of objects, checkout and merge of layers, SELinux labels.
- Tar headers beyond owner, mode, time, path and body; PAX extensions; how the tar library spells paths and link names.
- The export of a commit without chunks (`export_commit`), which writes files during the directory walk.
- Floating-point rounding and the standard deviation in lib/src/statistics.rs; the limits are arbitrary except in Statistics.
- Chunk names, metadata sizes, import statistics, and everything that is only printed.
- Marking commits as partial or complete, and the caching of a pending update as detached metadata.
- Finding an image already present, which writes no ref; import with `no_imgref` while collection is enabled; collection between preparation and import.
- The command line, `ManifestDiff`, repair, and comparison of checked-out trees with commits.
- Derived-layer annotations, history and compression in `export_to_oci`.
- PriorManifest.AnyManifest: for components that share a name only the number placed is given (PriorManifest.PlacedCount).
- Packing.BasicPacking: an underflow of the subtraction stops the model as it does with overflow checks; without them the program goes on with a wrapped number.
- Diff.FileTreeDiff.DiffRecurse: paths are sequences of names, not joined strings; comparing a directory with a non-directory fails, and a file with a directory counts as changed, where the program depends on libostree.
- ImageStore.ImageStore.Import: a commit's identity is a parameter, and the tar contents of a layer are not connected to the commit fetched for it; RoundTrip and Encapsulate treat those.
