# A model of recon, proved in Dafny

`recon` is a layered configuration registry. Explicit values, pinned sources, sources in precedence
order and defaults, together with aliases, are resolved into one immutable snapshot. Precomputed indices
over canonical path strings then answer reads. Around the snapshot sits a registry whose every write
mutates, rebuilds, and either commits or rolls back; a bind walk over struct types that may be cyclic;
and notification protocols built from channels and a timer.

This project models that logic and proves, for all inputs and all runs, what it promises:

- **Paths.** Printing and parsing round-trip on every path over arbitrary bytes; comparison without
  rendering is comparison of the rendered strings; a string prefix is a path prefix for every non-empty
  path except the one holding a single empty segment.
- **Resolution.** For every map iteration order the snapshot build gives the layered meaning, and one
  result exactly when no alias depends on when another is stamped, as with chains of at most 32 links; the
  indexed read is the layered meaning of a read; the single-tree view drops exactly the keys an ancestor or
  descendant outranks; a map read through one source comes back with every leaf in place. Which keys a
  snapshot holds and lists, and each value with its tag and provenance, follow from the layers, pins,
  sources, aliases and bound paths by an exact rule.
- **The registry.** In every reachable state the snapshot was built from the current maps and satisfied
  the validator; every failed write leaves everything as it was; recorded baselines hold in every
  snapshot a later rebuild installs; the alias graph never has a cycle. Each operation changes exactly the
  entries it names, and a read after a set, a default, a pin, an alias or a bind gives what was asked for,
  under exact conditions.
- **Binding.** The walk ends on every finite type graph and snapshot. It goes through exactly the routes on
  which a recursive pointer has data at its path, and consults no path that the snapshot leaves unanswered
  without having gathered it first.
- **Notification.** No step of the in-memory backend touches a closed channel or loses a change; the
  watch loop's timer is armed exactly when a reload is owed; every emitted event is delivered or counted,
  and the counts tell which ones are missing.

## How it is laid out

`Paths`, `PathForms`, `PathOrder` and `KeyCuts` are path.go. `Values` and `Trees` are value.go, the
merging half of precedence.go and setNested. `Aliases`, `Layers`, `Arena`, `Precedence`, `Snapshots`,
`Views`, `SectionReads`, `Stamping` and `SnapshotBuild` are resolution and the snapshot. `Registry` is the
registry as a state machine, `RegistryObject` its methods, each shown to be one step of it; `Construction`,
`SecretViews` and `BoundPaths` are building a registry, marking secrets and remembering bound paths.

Several modules say what these mean in terms of the layers and sources alone. `LayerOrder` and
`TreeContents` do so for conflicts, reads, the view and sections; `KeysHeld`, `MergedKeys`, `Labels` and
`Listings` for which keys a built snapshot holds, with what value, provenance and tag, and which it lists;
`Effects` for what each operation changes; `WriteThenRead` and `ReachableReads` for what reads give after a
write and in any reachable state.

`BindWalk`, `Backend`, `WatchLoop`, `SnapshotDiff`, `EventQueue`, `LiveView`, `Relay` (the watch loop and
Live joined), `MapSources` and `MapRoundTrip` are the remaining parts. `Lists` and `Runs` are general:
selecting from a list, and invariants over runs.

Some choices hold throughout:

- A string is a sequence of bytes. Maps the code keys by `Path.String()` are keyed by the path itself.
  `Paths.RoundTrip` and `Paths.CanonInjective` make that a renaming of keys, and `KeyCuts.CutsOfKey` says
  which path the code sees when it cuts a key string at a delimiter: `KeyCuts.Cut` and `KeyCuts.Rest`,
  which is what the modelled code uses. They differ from plain prefixes and suffixes only for keys whose
  first or last segment is empty; keys without one are called regular.
- The two reserved provenance names are constructors of `Values.Label`, apart from source names.
- A source is a pure lookup and a list of keys; the operation `SourcesChange` stands for its contents
  changing at any time. The validator is any predicate on the single-tree view.
- Iterating over a Go map is choosing an arbitrary remaining key, so a proved result holds for every
  order.
- A state machine is a state and a step function; a run is a sequence of events possible in the states
  they meet; a class whose methods update fields is shown to refine the step function.

Where the comments in the code and the code differ, the model follows the code. The comment on
`applyPrecedenceLocked` says it reorders the sources; with a name repeated in the order it also repeats a
source (`Construction.OrderCanRepeat`). `alias.go` speaks of a depth of 32; a chain grown at its tail can
pass every check and exceed it (`Aliases.DepthCanBeOutgrown`; `Aliases.RegistrationKeepsShort` says exactly
when), and then the iteration order of a map shows in the snapshot (`SnapshotBuild.LongLineShows`). The
comment on `Snapshot` promises that a map read of a key and the single-tree view settle a conflict alike;
with layers on both sides of the key's own they do not (`SectionReads.SectionReadCanDisagree`).

## Model

| member | source | states |
|---|---|---|
| `Paths.ClosingBracket` | path.go:79-91 | finds the bracket that closes a segment, skipping doubled ones, or -1 |
| `Paths.ParsePath` | path.go:41-75 | the loop with its fast path parses as the recursive definition says, on every byte string |
| `Paths.String` | path.go:102-130 | renders the canonical string, brackets and doubled brackets included |
| `Paths.AppendDoubled` | path.go:134-159 | appends a segment with every closing bracket doubled |
| `Paths.AppendCanonical` | path.go:134-159 | appends exactly what String renders |
| `Paths.TopLevelDelims` | path.go:223-236 | calls back with the delimiters outside brackets, in order, up to and including the first that the callback refuses |
| `Paths.FastParse` | path.go:41-48 | splitting at dots equals the scanner whenever there is no opening bracket, so the fast path is invisible |
| `Paths.SplitIsScan` | path.go:45-47 | the split of a string without brackets is what the scanner produces, from any buffer |
| `Paths.ScanJoinThen` | path.go:49-75 | scanning a rendered path followed by a delimiter and anything else yields the path, then the scan of the rest |
| `Paths.RoundTrip` | path.go:41-130 | parsing the rendering of any path gives the path back: empty segments, dots, brackets and runs of brackets included |
| `Paths.CanonInjective` | path.go:102-130 | two paths with the same canonical string are equal |
| `Paths.StringPrefixIsPathPrefix` | path.go:253-263 | "starts with the rendering of p and a dot" means "lies strictly below p" for every key, if and only if p is not the single empty segment |
| `Paths.NothingBelowEmpty` | path.go:102-130 | no canonical string starts with the rendering of the single empty segment and a dot, though paths lie below it |
| `Paths.DelimsAreBoundaries` | path.go:223-236 | the reported positions of a canonical string are exactly its segment boundaries, and both halves are the renderings of the two parts |
| `PathForms.PlainPrintsDotted` | path.go:95-130 | a path with no dot and no opening bracket in its segments prints as those segments with dots between them; only the single empty segment is bracketed |
| `PathForms.OtherPrintsBracketed` | path.go:95-130 | any other segment prints between brackets with its closing brackets doubled |
| `PathForms.PartsPrintApart` | path.go:102-130 | a longer path prints as the forms of its parts with a dot between them |
| `PathForms.PlainParsesAtDots` | path.go:41-48 | a string without opening brackets is cut at its dots and nowhere else |
| `PathForms.OpenBracketIsLiteral` | path.go:49-75 | an opening bracket that is never closed stands for itself |
| `PathOrder.FirstDifferenceDecides` | path.go:174-213 | the first byte where two strings differ decides their order; a proper prefix comes first |
| `PathOrder.ComparePaths` | path.go:174-213 | equals byte-wise comparison of the two rendered strings, for all pairs of paths |
| `PathOrder.CompareSegments` | path.go:174-213 | from the first differing segment, the comparison without rendering agrees with the rendered tails |
| `PathOrder.CompareTails` | path.go:174-213 | equal leading segments do not affect the order of the rendered strings |
| `PathOrder.SearchStrings` | snapshot.go:282-298 | binary search: everything before the index is smaller, nothing from it on is |
| `PathOrder.PrefixWindow` | snapshot.go:282-298 | the strings with the prefix are exactly one contiguous window of the sorted list |
| `PathOrder.KeysBelow` | snapshot.go:282-298 | returns, in order, exactly the listed non-alias keys strictly below the path |
| `PathOrder.WindowIsSubtree` | snapshot.go:282-298 | the window of strings with the prefix is the list of keys below the path |
| `PathOrder.ParentBefore` | snapshot.go:351-371 | a key sorts before every key below it |
| `PathOrder.InOrderUnique` | path.go:163-168 | a list sorted by canonical string is determined by its elements, so an unstable sort has one result |
| `KeyCuts.CutsOfKey` | snapshot.go:182-214 | what cutting a key string at a top-level delimiter and parsing both halves yields |
| `KeyCuts.CutsAreSegments` | path.go:223-236 | the cuts are the plain prefixes and suffixes if and only if the key is regular |
| `Values.UnwrapNew` | value.go:102-147 | wrapping data and unwrapping it deeply gives its plain form: the same data with every map a map[string]any |
| `Values.MergeValues` | precedence.go:169-206 | merges two values: maps entry by entry, slices by concatenation, otherwise the higher one |
| `Values.MergeMaps` | precedence.go:185-202 | the loops over both maps give the merged value, in any order |
| `Values.MergeEntry` | precedence.go:195-201 | one key of the second loop of the map merge |
| `Values.MergeSlices` | precedence.go:171-184 | the lower elements, then the higher |
| `Values.MergeUnwraps` | precedence.go:169-206 | merging tagged values is merging the plain data they hold |
| `Values.FoldContributions` | precedence.go:125-161 | the fold loop from the lowest contribution up |
| `Values.FoldLists` | precedence.go:125-161 | slices fold to their concatenation from lowest to highest precedence |
| `Values.FoldDicts` | precedence.go:125-161 | maps fold key by key, each over just the contributions holding the key |
| `Values.AppendMeaning` | precedence.go:125-206 | append merging: all-slice contributions concatenate, lowest precedence first; all-map contributions give the union of keys, each folded over its holders |
| `Values.HighestWins` | precedence.go:125-206 | where the highest contribution is a scalar or null, or of another kind than the rest together, it is the result |
| `Values.EqualityIsOfPayload` | watch.go:342-357 | equality ignores which layer supplied a value, holds only between equal payloads, and fails on a value and itself only for a NaN |
| `Trees.SetThenAt` | snapshot.go:448-465 | what setNested writes is read back at its path |
| `Trees.SetElsewhere` | snapshot.go:448-465 | writing leaves every path that is neither above nor below unchanged |
| `Trees.SetBelow` | snapshot.go:448-465 | writing below p is writing into the part of the tree at p |
| `Aliases.ResolveAliasChain` | alias.go:12-22 | follows at most 32 links |
| `Aliases.ResolvesIffShort` | alias.go:12-22 | resolution ends at a key that is no alias if and only if the chain has at most 32 links, and then it is the chain's unique end |
| `Aliases.ValidateNoAliasCycle` | alias.go:27-55 | accepts if and only if the canonical key's chain has at most 31 links and never meets the alias; otherwise returns the chain walked |
| `Aliases.AcceptedKeepsGrounded` | alias.go:27-55 | adding an accepted alias keeps every chain finite |
| `Aliases.NoCycle` | alias.go:24-55 | in a graph whose chains all end no key leads back to itself |
| `Aliases.DepthCanBeOutgrown` | registry_set.go:143-162 | 33 registrations, each accepted, after which a key no longer resolves to a non-alias |
| `Aliases.RegistrationKeepsShort` | registry_set.go:143-162 | when all chains have at most 32 links, an acyclic registration keeps it so if and only if every chain leading to the alias, the new link and the canonical's chain fit into 32 together |
| `Layers.FlattenLayer` | snapshot.go:769-792 | flattens a layer for every map order and every order of equally long keys |
| `Layers.FlattenInto` | snapshot.go:795-803 | writes the leaves of one value over what was there |
| `Layers.FlattenMeaning` | snapshot.go:769-803 | a leaf is present exactly when some entry reaches it, with the value of the deepest entry that does |
| `Layers.FlattenedIsFlat` | snapshot.go:769-803 | no value left in a flattened layer is a non-empty map |
| `Arena.SourceArena.Append` | precedence.go:99-104 | appends one name and disturbs no list handed out earlier, growing the block when full |
| `Arena.SourceArena.Carve` | precedence.go:109-114 | hands out the tail as a list that later appends cannot change |
| `Arena.SourceArena.Read` | precedence.go:109-114 | a list read at any later time is the list that was carved |
| `Precedence.LayerGet` | precedence.go:53-63 | the value under the key, else under the first of its aliases that the layer holds |
| `Precedence.SourceGet` | precedence.go:67-77 | the same for a source, with an error counting as absent |
| `Precedence.ResolveShadow` | precedence.go:82-120 | the first source's value, with all contributing sources in the arena, else the default |
| `Precedence.ResolveAppend` | precedence.go:125-161 | the merged contributions with their sources, highest precedence first |
| `Precedence.ResolvePinned` | precedence.go:27-42 | a pinned key is answered by its source alone, or not at all |
| `Precedence.ResolveKey` | precedence.go:20-49 | explicit, else pinned, else sources, else default |
| `Precedence.PrecedenceLaw` | precedence.go:20-120 | the layered law without reference to any loop: explicit value, else the pinned source's value or nothing, else the first source that has it, else the default |
| `Precedence.AppendLaw` | precedence.go:20-161 | the layered law under append merging: explicit, else pinned, else the fold of everything sources and defaults supply, with all their names and the first one's label; nothing exactly when nobody supplies anything |
| `Precedence.SupplySnoc` | precedence.go:82-120 | one more source adds its name to the provenance exactly when it has the key, and its value exactly when none before it has |
| `Precedence.ContributionSnoc` | precedence.go:125-161 | one more source adds its value to what is merged exactly when it has the key |
| `Snapshots.RankOrder` | snapshot.go:301-322 | with distinct names the i-th source ranks i + 1 |
| `Snapshots.RankBounds` | snapshot.go:301-322 | for every list of names the explicit layer ranks strictly before every other label, every registered source strictly before the defaults, and anything else with the defaults |
| `LayerOrder.HigherLayerWins` | snapshot.go:373-414 | of two listed keys one beneath the other, the one from the lower layer is dropped: explicit over every other, a source over the defaults, an earlier source over a later one |
| `LayerOrder.ExplicitStays` | snapshot.go:386-414 | a key whose value is explicit is never dropped from the view, and never in the index of keys whose parents outrank them |
| `LayerOrder.ExplicitIsRead` | registry_set.go:15-42 | an exact read of a key with an explicit value gives that value, and with no explicit key below it every read does |
| `LayerOrder.ExplicitShows` | snapshot.go:351-414 | an explicit value with no explicit key below it is in the view at its own path, whatever sources and defaults hold above or below |
| `LayerOrder.SectionTakesOver` | snapshot.go:166-177 | a key and a listed key below it from its own layer or a higher one: a map read gives the section, an exact read the value, a plain read the value unless it is null; where the value is a map only a higher layer takes over |
| `LayerOrder.ValueStays` | snapshot.go:166-177 | a key whose keys below come from lower layers, or from its own while it holds a map, reads as its value in every mode |
| `LayerOrder.ParentTakesOver` | snapshot.go:857-900 | an entry in a map above, from a higher layer, takes the place of the key's own value in every mode |
| `LayerOrder.SectionTag` | snapshot.go:247-277 | a section carries the tag of the first, in order, of the kept keys of the highest layer among them |
| `Snapshots.EntryIn` | snapshot.go:217-231 | descends through map values to the entry at a path |
| `TreeContents.EntryIsPart` | snapshot.go:217-231 | the entry at a path inside a value is the part at that path of the plain data the value holds |
| `Snapshots.ScanIsBest` | snapshot.go:182-214 | the scan finds the holder least in rank, nearest first, or there is none |
| `Snapshots.BestIsUnique` | snapshot.go:182-214 | there is only one such holder |
| `Snapshots.LookupInParent` | snapshot.go:182-214 | returns the best parent's entry |
| `Snapshots.ParentMapWins` | snapshot.go:857-900 | the index holds exactly the keys some higher-precedence parent has an entry for |
| `Snapshots.OverriddenParents` | snapshot.go:818-852 | the index holds exactly the keys a listed key below them outranks |
| `Views.ShadowedKeys` | snapshot.go:386-414 | drops exactly the keys that lose a conflict in the list |
| `Views.DroppedIffOutranked` | snapshot.go:373-414 | for every list, a key is dropped if and only if a key beneath which it lies or that lies beneath it has strictly higher precedence; without the root and the single empty segment in the list, these are the keys above and below it |
| `Views.ConflictIsNesting` | snapshot.go:386-414 | for all keys, two conflict if and only if one lies beneath the other, the root taking the place of the single empty segment |
| `Views.AsMapTree` | snapshot.go:351-371 | builds the single-tree view |
| `Views.LeavesInTree` | snapshot.go:351-371 | a kept key with no kept key below it keeps its value while the tree is written, unless the single empty segment is kept above it |
| `Views.AsMapHoldsLeaf` | snapshot.go:351-414 | every surviving key with no surviving key below it is in the view at its own path with its own value, unless the single empty segment survives above it |
| `Views.EmptySegmentErases` | snapshot.go:351-371 | the single empty segment, when listed, is written after the keys below it and takes their place |
| `Views.LookupSubtree` | snapshot.go:247-277 | assembles a section from the keys below it, tagged with the highest-precedence source |
| `Views.SubtreeIsPartOfTree` | snapshot.go:247-371 | where keys lie below p and none at or above it, whatever other keys are listed, the section at p is exactly the part of the single-tree view at p |
| `TreeContents.ShownIsListed` | snapshot.go:351-371 | the view shows something at a path only on account of a listed key at, above or below it that is no alias and that no conflicting key outranks |
| `TreeContents.SectionIff` | snapshot.go:247-277 | there is a section exactly where some key below has a value, listed or not, and is no alias; the root and the single empty segment have none |
| `TreeContents.SectionKeys` | snapshot.go:247-277 | it is assembled from the listed keys below, or, if there are none, from the resolved ones |
| `Views.Read` | snapshot.go:148-177 | the read with its index shortcuts, branch by branch |
| `Views.ReadIsMeaning` | snapshot.go:148-214 | whenever the indices are exact, the indexed read of any key that is no alias, or agrees with its target, equals the meaning of a read, which uses no index |
| `Views.ExactRead` | snapshot.go:148-214 | whenever the indices are exact, an exact read of any regular non-alias key returns the candidate least in (rank, distance) among its own value and the entries in its ancestors' maps, and a section only when there is none |
| `Views.AliasReadsAsTarget` | snapshot.go:148-177 | an alias that agrees with its target reads as the target, in every mode |
| `SectionReads.SectionReadAgrees` | snapshot.go:30-39 | a map read of a key that has its own value agrees with the single-tree view wherever the keys below it come all from lower layers, or none from a lower one and they override it |
| `SectionReads.KeyWins` | snapshot.go:166-177 | when all keys below come from lower layers, both give the key's own value |
| `SectionReads.SectionWins` | snapshot.go:166-177 | when none comes from a lower layer and the key is overridden, both give the section below it |
| `SectionReads.SectionReadCanDisagree` | snapshot.go:30-39 | with a higher and a lower layer below the key the two differ: the view drops the lower entry, the map read keeps it |
| `SnapshotBuild.CollectCandidateKeys` | snapshot.go:719-739 | exactly the keys that the explicit or default layer holds, that are aliases, that a bind has read or that a source lists |
| `SnapshotBuild.InvertAliases` | snapshot.go:743-762 | lists for every target its aliases, sorted |
| `SnapshotBuild.ResolveAll` | snapshot.go:563-585 | every candidate's target is resolved once, with its provenance in the arena, in any order |
| `Stamping.StampAliases` | snapshot.go:586-592 | the loop stamps the aliases along the order it meets them in, with any chains |
| `Stamping.StampsAlias` | snapshot.go:586-592 | an alias whose target is no alias takes the target's value in every order |
| `Stamping.OneResultIffFree` | snapshot.go:586-592 | every order gives one result if and only if no alias is disturbed: where a target is itself an alias whose own target has a value, stamping it early or late leaves the alias the same |
| `Stamping.LongLineDisturbs` | registry_set.go:143-162 | 34 registrations, each accepted, after which the first alias is disturbed |
| `SnapshotBuild.DuplicateSpellings` | snapshot.go:650-693 | hides exactly the source-listed spellings of entries that a bound key of the same source names |
| `SnapshotBuild.HideBoundParents` | snapshot.go:698-714 | drops exactly the bound-only maps whose entries are listed below them |
| `SnapshotBuild.BuildSnapshot` | snapshot.go:547-626 | for every iteration order and any alias chains: the snapshot that the layered meaning and the order of the aliases define, provenance lists, listing and indices included |
| `SnapshotBuild.OneSnapshotIffFree` | snapshot.go:547-626 | all orders give one snapshot if and only if no alias is disturbed; chains of at most 32 links are enough |
| `SnapshotBuild.LongLineShows` | snapshot.go:547-626 | 34 accepted registrations and one explicit value whose snapshot depends on the order in which a map is iterated |
| `SnapshotBuild.BuildMeaning` | snapshot.go:547-592 | in every built snapshot a key that is no alias holds exactly what it resolves to, value and provenance, and is absent otherwise; an alias holds what its target does; with short chains every key holds what its target resolves to |
| `KeysHeld.PresentIff` | snapshot.go:547-592 | for every order, a key that is no alias has a value exactly when some spelling of it is mentioned, by a layer's leaf, an alias, a bind or a source's list, and a layer or source that may speak for it has a value |
| `KeysHeld.BoundPathIsHeld` | snapshot.go:719-739 | a bound path that is no alias and not pinned, and that some source answers, has a value although no source lists it; under shadowing and with no explicit value, that of the first source to answer it |
| `KeysHeld.ExplicitIsHeld` | precedence.go:20-26 | an explicit leaf is what its key holds, with the explicit layer as its whole provenance, whatever is pinned, supplied or a default; of several spellings the key itself comes first, then its aliases in order |
| `KeysHeld.PinnedIsHeld` | precedence.go:27-42 | without one, a pinned key holds what the named source supplies |
| `KeysHeld.PinnedIsAbsent` | precedence.go:27-42 | and has no value if that source supplies none or is gone |
| `KeysHeld.FirstSourceIsHeld` | precedence.go:82-120 | without either, and under shadowing, a key holds what the first source that answers it supplies, under the first spelling it answers |
| `KeysHeld.DefaultIsHeld` | precedence.go:82-161 | and where no source answers it, its default, under either merging strategy |
| `KeysHeld.SpeakersHaveValues` | precedence.go:53-77 | whoever answers a key under some spelling has a value for it under a first one |
| `MergedKeys.ShadowProvenance` | precedence.go:82-120 | the provenance lists exactly the sources that answer the key, in order, shadowed ones included |
| `MergedKeys.MergedIsHeld` | precedence.go:125-161 | under merging a key holds the fold of what exactly those sources supply, highest first, and of its default last, with all their names |
| `Labels.BuiltLabels` | snapshot.go:563-592 | every value, those of aliases included and whatever the chains, is tagged with the layer that heads its provenance, which is the explicit or default one or a registered source, and a source for a map with entries |
| `Labels.TagTells` | precedence.go:20-49 | the tag is the explicit layer's exactly when that speaks for the key, and the defaults' exactly when no explicit value, pin or source does |
| `Listings.ListedIff` | snapshot.go:631-714 | a key is listed exactly when it has a value and is neither the second spelling of a bound key nor a bound map whose parts have values of their own |
| `SnapshotBuild.BuildReadable` | snapshot.go:547-626 | every built snapshot, with any chains and keys, is sorted and has exact indices; it holds the root or the single empty segment only if the inputs do |
| `SnapshotBuild.BuildAgrees` | snapshot.go:586-592 | in every built snapshot an alias agrees with a target that is no alias and has a value; with short chains every alias does |
| `SecretViews.SecretsDoNotShow` | registry_describe.go:163-186 | the single-tree view does not depend on the secret set |
| `SecretViews.SecretsDoNotRead` | registry_describe.go:163-186 | no read depends on the secret set |
| `SecretViews.BuildWithSecrets` | registry_describe.go:163-186 | swapping the set into a snapshot is what a rebuild with that set, stamping in the same order, would give |
| `BoundPaths.UnheldBoundPaths` | registry_bind.go:236-269 | when no source holds the newly bound paths, a rebuild would change no value or provenance, and nothing at all if and only if no listed key becomes a second spelling of one and none is put aside for keys below it |
| `BoundPaths.UnansweredBoundPaths` | registry_bind.go:213-224 | for the paths a bind adds, which its snapshot does not answer: when no source holds them, the installed snapshot is exactly the one a rebuild would give, so skipping it is sound |
| `BoundPaths.AliasedPathIsHidden` | snapshot.go:698-714 | an added path that does have a value, here through an alias, can be listed now and hidden by the next rebuild |
| `Registry.StepKeepsInv` | registry.go:512-553 | every step, accepted, refused or rolled back, keeps names proper, chains finite and the snapshot in step with all the maps, with any chains; a failed one leaves the whole state as it was |
| `Registry.RunKeepsInv` | registry.go:512-553 | in every reachable state, with any chains, the snapshot was built from exactly the current explicit, default, alias and pin maps and source order, carries the current secrets and satisfied the validator; distinct source names stay distinct |
| `Registry.BaselineHolds` | registry.go:558-594 | over every run a recorded baseline never changes, and every snapshot a later rebuild installs reads an equal value there |
| `Registry.BaselineReads` | registry.go:558-594 | after any later rebuild an exact read, or a map read for a map, gives the recorded payload |
| `Registry.PlanKeepsGrounded` | registry_set.go:143-162 | no operation creates an alias cycle |
| `Registry.InsertKeepsNames` | registry.go:439-452 | inserting a source with a free name keeps names non-empty, unreserved and distinct |
| `ReachableReads.BuiltRead` | snapshot.go:148-214 | an exact read of a regular key in a built snapshot, when the key is no alias and none lies above it or all chains are short, is the value the first of the layers holds for the key, nearest key deciding within a layer, whichever order the aliases were stamped in |
| `ReachableReads.ReachableRead` | registry.go:512-553 | the same in every reachable state, for the current explicit, default, pin and alias maps and source order: registry, build, indices and read composed |
| `RegistryObject.RegistryState.CheckImmutable` | registry.go:558-594 | passes exactly when every baselined path still reads an equal value, absence failing |
| `RegistryObject.RegistryState.RebuildSnapshot` | registry.go:520-553 | installs the candidate exactly when it passes the baseline and validator checks, and changes nothing otherwise |
| `RegistryObject.RegistryState.Reload` | registry.go:227-240 | one atomic step: rebuild or leave everything |
| `RegistryObject.RegistryState.Set` | registry_set.go:23-42 | one atomic step: the key's explicit entry becomes the value or is removed, no other entry of either layer moves; on a refused rebuild every field, snapshot included, is as before |
| `RegistryObject.RegistryState.SetDefault` | registry_set.go:48-67 | the same for the default layer, the explicit one staying as it is |
| `RegistryObject.RegistryState.SetValues` | registry_set.go:86-112 | many keys of one layer in one atomic step, the other layer staying as it is |
| `RegistryObject.RegistryState.WriteLayer` | registry_set.go:98-105 | the loop over the given values gives one layer in any order |
| `RegistryObject.RegistryState.Unset` | registry_set.go:117-134 | one atomic step; nothing to do for an absent key |
| `RegistryObject.RegistryState.RegisterAlias` | registry_set.go:143-162 | one atomic step; refused exactly when the cycle check refuses or the rebuild does |
| `RegistryObject.RegistryState.PinSource` | registry_set.go:171-192 | one atomic step; refused for an unknown source |
| `RegistryObject.RegistryState.Unpin` | registry_set.go:196-213 | one atomic step; nothing to do for a key that is not pinned |
| `RegistryObject.RegistryState.InsertSource` | registry.go:272-300 | one atomic step at the clamped position; a refused rebuild takes the source out again |
| `RegistryObject.RegistryState.AddSource` | registry.go:250-267 | insertion at the lowest precedence |
| `RegistryObject.RegistryState.RemoveSource` | registry.go:308-331 | one atomic step; a refused rebuild puts the source back where it was |
| `RegistryObject.RegistryState.AddBoundPaths` | registry_bind.go:236-269 | remembers new paths, rebuilds only when a source holds one, and forgets them if that is refused |
| `RegistryObject.RegistryState.AnySourceHasOne` | registry_bind.go:273-282 | true exactly when some source holds one of the paths |
| `RegistryObject.RegistryState.MarkSecrets` | registry_describe.go:163-186 | grows the set and swaps it into the snapshot without a rebuild, in one step |
| `RegistryObject.RegistryState.MarkImmutable` | registry.go:642-656 | records a baseline once per path |
| `Effects.SetLayerEffect` | registry_set.go:23-112 | what Set, SetDefault, SetValues and SetDefaults do, entry by entry: refused when closed, nothing for no keys, else a rebuild that succeeds exactly when baselines and validator pass, after which the chosen layer alone holds the given values |
| `Effects.UnsetEffect` | registry_set.go:117-134 | the explicit entry is gone and everything else stays |
| `Effects.AliasEffect` | registry_set.go:143-162 | refused when the canonical's chain meets the alias or is too long; else the one link is set and both keys resolve to the end of the canonical's old chain, which is no alias |
| `Effects.PinEffect` | registry_set.go:171-192 | refused for an unknown source; else the one pin is set |
| `Effects.UnpinEffect` | registry_set.go:196-213 | the one pin is removed |
| `Effects.InsertEffect` | registry.go:272-300 | refused for an empty, reserved or taken name; else the source stands at the asked index, or at the nearer end, and the others keep their order |
| `Effects.RemoveEffect` | registry.go:308-331 | one source of the name is gone, with distinct names the name too, and the others keep their order |
| `Effects.ReloadEffect` | registry.go:227-240 | a rebuild from what is there |
| `Effects.AddBoundEffect` | registry_bind.go:236-282 | a rebuild exactly when some source answers a path that is new; accepted, the set has grown by the paths, refused, it is as before |
| `Effects.SecretsEffect` | registry_describe.go:163-186 | the secret set grows, in the registry and in the installed snapshot alike, and nothing else changes |
| `Effects.BaselineEffect` | registry.go:642-656 | a baseline that was not there is there, one that was stays as it is, the root gets none |
| `Effects.CloseEffect` | registry.go:174-205 | closing sets the flag alone, and every later rebuilding write is refused |
| `WriteThenRead.SetThenRead` | registry_set.go:15-42 | after an accepted Set every leaf of the value is listed, tagged explicit, and what an exact read of its key gives, whatever sources, pins and defaults say, unless a deeper explicit key holds it |
| `WriteThenRead.SetThenShows` | registry_set.go:15-42 | and the view the validator saw has it at its path, unless another explicit value lies below |
| `WriteThenRead.SetDefaultThenRead` | registry_set.go:44-67 | after an accepted SetDefault the key of a leaf has a value and an exact read gives the leaf, tagged default, if and only if no explicit value, pin or source speaks for the key and nothing but defaults holds it from a key above; a regular key has a value whenever the read gives that |
| `WriteThenRead.PinThenRead` | registry_set.go:164-192 | after an accepted pin the key, without an explicit value, reads as what the named source supplies, or as nothing of its own |
| `WriteThenRead.AliasThenRead` | registry_set.go:136-162 | after an accepted alias it reads, in every mode, as the end of the canonical key's chain |
| `WriteThenRead.AddBoundThenHeld` | registry_bind.go:236-269 | after bound paths were added and a rebuild accepted, the installed snapshot has a value for every bound path that some source answers and that is no alias and not pinned: that of the first source under shadowing |
| `WriteThenRead.RemoveThenGone` | registry.go:302-331 | after a source was removed no value of the installed snapshot comes from it |
| `WriteThenRead.InsertThenHeld` | registry.go:269-300 | after a source was inserted in front, each key it lists and answers holds what it supplies, unless an alias, pinned or set explicitly |
| `RegistryObject.RestoreUndoesPut` | registry_set.go:229-243 | restoring the remembered entry undoes a write or a removal |
| `Construction.AddInitial` | registry.go:394-404 | keeps the longest prefix of the given sources whose names are proper and distinct |
| `Construction.ApplyPrecedence` | registry.go:457-479 | the loops give the reordered list: first the sources the order names, in its order, then the others as they stood |
| `Construction.ReorderedOrder` | registry.go:457-479 | by position alone: a source the order names stands before one it does not; of two it names, the one named first; of two others, the one that stood first |
| `Construction.ReorderedMember` | registry.go:457-479 | reordering neither loses nor invents a source |
| `Construction.ReorderedDistinct` | registry.go:457-479 | names stay distinct if and only if the order asks for no registered source twice |
| `Construction.ReorderedPermutes` | registry.go:457-479 | and then the result is a permutation of the sources |
| `Construction.OrderCanRepeat` | registry.go:457-479 | a name asked for twice puts its source in two places |
| `Construction.InitialSources` | registry.go:139-150 | the sources a registry starts with, after a refused one stopped the adding or the order was applied |
| `Construction.FirstSnapshot` | registry.go:152-158 | no registry exactly when the first snapshot is rejected and holds values; otherwise a valid one, with the snapshot exactly when it was accepted |
| `Construction.BuildRegistry` | registry.go:126-169 | from the given sources and the requested order: which sources are kept, whether one was refused, the snapshot built from them, and the registry's state or none |
| `BindWalk.Shrinks` | bind_walker.go:236-255 | descending into a field lowers (data depth left, types not on the stack, containment rank) |
| `BindWalk.SnapshotDepth` | bind_walker.go:259-266 | every snapshot answers only up to some length of path |
| `BindWalk.BindWalker.CollectPaths` | bind_walker.go:184-211 | ends, restores the stack, and gathers exactly the unanswered paths at the ends of the routes from the type |
| `BindWalk.BindWalker.Walk` | bind_walker.go:70-87 | ends, restores the stack, consults only ends of routes from the type and, unless an error cuts it short, every end of a route on which no pointer may stay nil |
| `BindWalk.VisitedIffReached` | bind_walker.go:184-255 | the recursion goes through exactly the paths at the ends of routes: chains of fields on which a pointer to a type met before has segments and data at its path, so recursive pointers are followed exactly as deep as there is data |
| `BindWalk.BindWalker.HasKeysUnder` | bind_walker.go:259-266 | true exactly when the snapshot answers the path |
| `BindWalk.Bind` | bind_walker.go:184-266 | for every finite, possibly cyclic, type graph and every snapshot: the gathered paths are exactly the unanswered ends of routes; every consulted path is the end of a route, answered or gathered; and every end of a route on which no pointer may stay nil is consulted unless an error cuts the walk short |
| `Backend.ChangeNotifies` | remote_inmemory.go:31-74 | an accepted change leaves a tick pending on every open subscription |
| `Backend.WritesEffect` | remote_inmemory.go:31-74 | Put writes its key, PutAll its keys, Delete removes its own, other keys stay; nothing is written once closed or by any other operation |
| `Backend.ChannelsEffect` | remote_inmemory.go:101-141 | an accepted watch opens its own channel, a cancel closes its own, Close closes all, and nothing else opens or closes one |
| `Backend.ReceiveEffect` | remote_inmemory.go:101-126 | taking a tick leaves none pending and every change so far seen, and touches no other channel |
| `Backend.StepKeeps` | remote_inmemory.go:31-161 | every step keeps: no send on or close of a closed channel, at most one close per channel, the list exactly the open ones in order, ticks matching unseen changes |
| `Backend.EveryRunIsSafe` | remote_inmemory.go:31-161 | the same in every interleaving of writes, watches, cancels, receives and close |
| `Backend.CloseIsFinal` | remote_inmemory.go:129-141 | after Close no run writes, notifies or leaves a channel open |
| `Backend.MemoryBackend.NotifyAll` | remote_inmemory.go:154-161 | sends to every subscription without blocking, a pending tick absorbing the send |
| `Backend.MemoryBackend.Put` | remote_inmemory.go:31-42 | one atomic step that keeps the invariant |
| `Backend.MemoryBackend.PutAll` | remote_inmemory.go:45-56 | the same, with one notification for many keys |
| `Backend.MemoryBackend.Delete` | remote_inmemory.go:59-74 | the same; an absent key notifies nobody |
| `Backend.MemoryBackend.Watch` | remote_inmemory.go:101-126 | returns a fresh channel, open exactly when the backend is |
| `Backend.MemoryBackend.Cancel` | remote_inmemory.go:112-124 | removes and closes the channel once, and does nothing when it is gone |
| `Backend.MemoryBackend.Close` | remote_inmemory.go:129-141 | closes every subscription once; idempotent |
| `EventQueue.EmitAccounts` | watch.go:251-281 | emitting keeps the account: emitted equals delivered plus reported drops plus the current count, and the reported numbers place every delivered event in the sequence of emitted ones |
| `EventQueue.TakeAccounts` | watch.go:247-281 | so does a reader taking an event |
| `EventQueue.EmitDelivers` | watch.go:251-281 | an event is dropped only when the channel is full; otherwise it is the last one waiting and carries the count of all drops before it |
| `EventQueue.TakeIsOldest` | watch.go:247-281 | a reader takes the oldest event |
| `SnapshotDiff.KeyValues` | watch.go:324-337 | the listed keys that are no aliases, with their values |
| `SnapshotDiff.DiffMaps` | watch.go:301-313 | lists once each exactly the keys added, removed or altered |
| `SnapshotDiff.DiffSnapshots` | watch.go:294-320 | the same between two snapshots, sorted |
| `SnapshotDiff.DiffIsExact` | watch.go:291-320 | a key is reported if and only if it was added, removed or altered |
| `SnapshotDiff.DiffBetween` | watch.go:291-337 | between two snapshots: a key is reported exactly when one lists it, not as an alias, and the other does not, or both do with different payloads or a NaN |
| `SnapshotDiff.EmptyDiff` | watch.go:291-320 | nothing is reported if and only if both snapshots show the same keys with equal values |
| `SnapshotDiff.NaNIsAlwaysReported` | watch.go:294-320 | a key that shows a NaN, which is unequal to itself, is reported even between a snapshot and itself |
| `WatchLoop.StepKeeps` | watch.go:170-217 | every step keeps the timer, change and event accounts |
| `WatchLoop.EveryRunInStep` | watch.go:170-217 | in every run, under either timer semantics: armed exactly when an error-free change arrived since the last reload; no stale tick; every change reloaded or waiting; no more reloads than changes |
| `WatchLoop.ReloadReports` | watch.go:222-245 | a reload's event names the latest change's source and exactly the changed keys, or an error and none |
| `WatchLoop.ChangeReports` | watch.go:190-210 | a failed change emits its report at once and leaves the timer alone; an error-free one emits nothing and leaves the timer running from now with no tick waiting |
| `WatchLoop.TickDisarms` | watch.go:211-215 | a tick emits one event, disarms and forgets the source |
| `WatchLoop.WatchEngine.HandleChange` | watch.go:190-210 | a failed change is reported; an error-free one stops, drains and resets the timer |
| `WatchLoop.WatchEngine.HandleTick` | watch.go:211-215 | disarms, reloads and clears the last source |
| `WatchLoop.WatchEngine.FireReload` | watch.go:222-245 | emits one event, with the difference of the two snapshots when the rebuild succeeded |
| `WatchLoop.WatchEngine.Send` | watch.go:251-281 | delivers with the drop count and clears it, or counts one more drop |
| `LiveView.StepKeeps` | live.go:135-202 | every step keeps the last good value, the last error and the event account |
| `LiveView.EveryRunIsLive` | live.go:119-202 | in every run the value handed out is the last successful decode, the error that of the latest attempt, and every event is accounted for |
| `LiveView.ReadersDoNotMatter` | live.go:119-154 | the sequence of rebinds does not depend on who reads the events |
| `LiveView.HandleEffect` | live.go:135-154 | a failed reload or decode keeps the value and becomes the last error, a successful decode becomes the value and clears it, and the event is forwarded with that error |
| `LiveView.ReloadEffect` | live.go:192-202 | a rebind on demand does the same and forwards nothing |
| `LiveView.Live.Handle` | live.go:135-154 | rebinds after a successful reload, records the outcome, forwards the event |
| `LiveView.Live.Emit` | live.go:159-178 | delivers with the drop count, or counts one more |
| `LiveView.Live.Reload` | live.go:192-202 | rebinds now and emits nothing |
| `Relay.StepKeeps` | live.go:119-154 | every step of engine and Live together keeps both accounts and the link between them |
| `Relay.EveryRunLinked` | live.go:119-154 | in every interleaving Live has forwarded, event by event, what it took from the engine, failed reloads with an error |
| `Relay.EndToEnd` | live.go:119-178 | in every run each event the engine emitted is delivered, waiting, reported as dropped or counted on one of the two channels, and the warnings on both tell which of the engine's events a delivered one is |
| `MapSources.Get` | source_map.go:52-73 | finds exactly the node at the path; a missing or non-map node on the way, and the empty path, are misses |
| `MapSources.CountLeaves` | source_map.go:124-135 | the leaves and the segments of all their paths, in any order |
| `MapSources.SumAny` | source_map.go:124-135 | the sums do not depend on the order of the keys |
| `MapSources.LeafWriter.AddLeaf` | source_map.go:144-154 | appends one path to the shared array as the next window, end to end with the last |
| `MapSources.LeafWriter.Walk` | source_map.go:144-154 | writes every leaf once and uses exactly the counted space |
| `MapSources.LeafPaths` | source_map.go:112-120 | every leaf path once, each a window of one array that has exactly the predicted size and is full, no window reaching into another |
| `MapSources.HoldsApart` | source_map.go:144-154 | windows laid end to end do not overlap |
| `MapSources.Keys` | source_map.go:80-95 | sorted, without repeats, exactly the leaves; each is found by Get, and is a map only if it is a typed one, which no path leads into |
| `MapRoundTrip.AloneBuild` | snapshot.go:547-626 | the snapshot of one map source lists exactly the map's leaves, each with its value, in plain form, and that source |
| `MapRoundTrip.SetLeaf` | snapshot.go:448-465 | writing a plain value where nothing is in the way adds one leaf and keeps the others |
| `MapRoundTrip.LeavesDetermine` | snapshot.go:351-371 | trees without empty maps are equal when their leaves are |
| `MapRoundTrip.AssembleIsPlain` | snapshot.go:351-371 | the view is the plain form of the tree that writing the map's own leaves gives |
| `MapRoundTrip.MapComesBack` | snapshot.go:351-371 | a map that is the only source comes back from the single-tree view with every leaf at its path, in plain form, and is its own plain form if and only if it holds no empty nested map; without typed maps it comes back with the same leaves, and identical under the same condition |

## Left out

- Raw values (a Go value of a type the registry does not know): rewrapping one is not the identity, and no law here covers them.
- Codecs, coercion, tags, transforms, hooks and custom decoders: they wrap parsers and reflection; a bound leaf is only the paths it consults.
- Files, standard input, saving, polling and file watching: a source is a pure lookup whose contents may change between steps.
- Environment sources and the environment-key mode of MapSource: name mangling and Unicode case mapping.
- Configs, the channel multiplexer over several registries: it adds only forwarding.
- Error texts, log output, wall-clock times, deprecation warnings other than drop counts, and redaction.
- Prefixed registry views: keys are full paths; two spellings of one key in a single SetValues call are one entry here.
- Subscribing and unsubscribing sources as they come and go, and calling Close on them.
- Data races: each operation under the registry's or backend's lock is one step; a reload's two snapshot loads outside the lock are its parameters.
- Sharing of nested maps and of the walk's prefix buffer: setNested and the leaf walk are modelled on values, so update in place inside a nested map is not captured.
- Values.ValuesEqual: a NaN is unequal to itself, but one inside a slice or map is not told apart, since there the code's answer depends on whether the two share storage.
- Typed slices and number widths: a []string or an int32 is taken for the []any or int64 it becomes; typed maps are kept apart because no path leads into one.
- BindWalk.BindWalker.Walk: where an error cuts the walk short and which pointers are nil depend on values that are not part of this model, so both are open choices; the registry does not change during the walk.
- Lookups of single keys by `HasPrefix`, `After` and the accessors of values: easy members.
