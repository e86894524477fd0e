# Cargo options merge of the coverage tool

This project models the `cargo` section of the coverage tool's configuration
(`CargoConfig` in `src/config/cargo.rs`): its default value, and `merge`, which
folds a secondary, lower-precedence layer (for example a configuration file)
into a primary one (for example the command line). The rules are:

- the on/off options are OR-ed;
- `target`, `jobs` and `profile` keep the primary's value when it is set;
- the `features` strings are joined with one space;
- each of the lists `packages`, `exclude`, `varargs` and `Z` (unstable
  features) is extended with the secondary's entries that it did not
  already hold;
- afterwards every package named in `exclude` is removed from `packages`,
  and each removal is logged.

`CargoConfig` is a class whose fields the merge updates in place. The seven
boolean fields (`locked`, `frozen`, `all_features`, `no_default_features`,
`all`, `release`, `offline`) are held as one field `flags: set<Flag>`: the
source's field `release` is `Release in flags`, and so on. The seven `|=`
updates therefore become one set union. `Vec<String>` fields are `seq<string>`
fields that the methods reassign.

Module `Sequences` (`sequences.dfy`) defines the list operations the merge
uses:

- `Without(s, excl)` is the `filter(!contains)` and `retain` filter;
- `Within(s, excl)` is what that filter drops;
- `Extended(mine, theirs)` is `mine` followed by `Without(theirs, mine)`.

The module proves counts, order and associativity for these operations.
Module `Cargo` (`cargo.dfy`) holds the configuration and the merge. `Merge` is
made of step methods, one per group of statements in the source, each proved
against these functions.

## Model

| member | source | states |
|---|---|---|
| Cargo.CargoConfig.constructor | src/config/cargo.rs:49-70 | the default layer has every flag off, every option unset, every list empty, the `test` subcommand, and no excluded package selected |
| Cargo.CargoConfig.Merge | src/config/cargo.rs:73-138 | after the merge: flags are the union; target, jobs and profile are the first set value; features are joined; exclude, varargs and Z are the old list extended by the other's new entries; packages are the extended list purged of every excluded name; the logged removals are exactly the extended packages that are excluded; no package is excluded; the command is unchanged |
| Cargo.CargoConfig.MergeOptions | src/config/cargo.rs:74-88 | each flag is on when either layer has it on; target, jobs and profile keep this layer's value when set and take the other's otherwise |
| Cargo.CargoConfig.MergeFeatures | src/config/cargo.rs:89-96 | features are unchanged when the other's are unset, are the other's when this layer's are unset, and are "mine + space + theirs" when both are set |
| Cargo.CargoConfig.ExtendLists | src/config/cargo.rs:98-128 | each of the four lists becomes `Extended(old list, other's list)` |
| Cargo.CargoConfig.PurgeExcludedPackages | src/config/cargo.rs:130-137 | packages become the old packages without the excluded ones, in order; the logged removals are the excluded ones, in order; afterwards no package is excluded |
| Cargo.CargoConfig.MergeScalars | src/config/cargo.rs:74-96 | the flag, option and features rules together |
| Cargo.CargoConfig.MergeLists | src/config/cargo.rs:98-137 | the list rules together: extension, then the purge of packages |
| Cargo.CollectMissing | src/config/cargo.rs:98-103 | the loop collects exactly the other's entries that this list does not contain, in their order, duplicates kept |
| Cargo.RetainNotExcluded | src/config/cargo.rs:130-137 | the loop keeps exactly the non-excluded packages in order, and reports exactly the excluded ones in order |
| Cargo.PickOptional | src/config/cargo.rs:78 | the primary's value wins when set; the result is set iff either side is; it is one of the two inputs |
| Cargo.PickOptionalAssociative | src/config/cargo.rs:78 | first-set-wins gives the same result however three layers are grouped |
| Cargo.UnionFlags | src/config/cargo.rs:74-81 | a flag is on in the result iff it is on in either layer |
| Cargo.Names | src/config/cargo.rs:24-25 | splitting a features string gives at least one name, and no name contains a space |
| Cargo.JoinFeatures | src/config/cargo.rs:89-96 | the merged features are set iff either layer's are |
| Cargo.NamesRoundTrip | src/config/cargo.rs:24-25 | splitting loses nothing: joining the names of a features string with single spaces gives the string back |
| Cargo.JoinSpacesCons | src/config/cargo.rs:24-25 | a character in front of the first name is a character in front of the joined string |
| Cargo.NamesOfWord | src/config/cargo.rs:24-25 | a string without a space is a single name |
| Cargo.NamesOfJoinSpaces | src/config/cargo.rs:24-25 | joining space-free names with single spaces and splitting again gives back the names |
| Cargo.NamesOfJoin | src/config/cargo.rs:93-94 | the names of "m + space + t" are the names of m followed by the names of t |
| Cargo.JoinFeaturesNames | src/config/cargo.rs:89-96 | the merged features ask for the primary's feature names followed by the secondary's, none lost and none invented |
| Cargo.JoinFeaturesAssociative | src/config/cargo.rs:89-96 | joining features gives the same string however three layers are grouped |
| Cargo.MergeDefaultIsNoOp | src/config/cargo.rs:49-138 | merging the default layer into a layer whose packages are not excluded leaves every field unchanged |
| Cargo.MergeCloneIsIdempotent | src/config/cargo.rs:73-138 | merging an equal copy of a layer whose packages are not excluded leaves flags, target, jobs, profile, command and all four lists unchanged; only the features are repeated after a space |
| Cargo.MergeAccumulatesExample | src/config/cargo.rs:98-104 | primary ["y","z"] merged with ["x","y"] gives ["y","z","x"] |
| Cargo.MergePurgesExample | src/config/cargo.rs:106-137 | packages ["y","z"] with the other's exclude ["z"] become ["y"], and "z" is the one removal logged |
| Cargo.MergeScalarsExample | src/config/cargo.rs:74-96 | "f1" and "f2" join to "f1 f2"; the primary's target wins, an unset target takes the other's; flags are united |
| Sequences.Without | src/config/cargo.rs:98-103 | an element is in the filtered list iff it is in the input and not excluded; the result is no longer than the input |
| Sequences.Within | src/config/cargo.rs:131-135 | an element is in the dropped list iff it is in the input and excluded |
| Sequences.Extended | src/config/cargo.rs:98-104 | the old list is a prefix of the result; every element of the other list is in the result; nothing outside the two lists is |
| Sequences.WithoutCount | src/config/cargo.rs:98-103 | filtering keeps every occurrence (duplicates included) of an element that is not excluded, and none of one that is |
| Sequences.WithinCount | src/config/cargo.rs:131-135 | the dropped list holds every occurrence of each excluded element, and nothing else |
| Sequences.PartitionedByExclusion | src/config/cargo.rs:130-137 | the kept and dropped packages together are exactly the old packages, as a multiset |
| Sequences.ExtendedCount | src/config/cargo.rs:98-104 | the extension adds every occurrence, duplicates included, of an element of the other list that is new to this one |
| Sequences.WithoutIsSubsequence | src/config/cargo.rs:131-137 | the kept packages stay in their original order |
| Sequences.WithinIsSubsequence | src/config/cargo.rs:131-137 | the dropped (logged) packages are in their original order |
| Sequences.SubsequenceOfPrefix | src/config/cargo.rs:131-137 | a subsequence stays one when the sequence grows at the end |
| Sequences.SubsequenceOfDropLast | src/config/cargo.rs:131-137 | dropping the last element of a subsequence leaves a subsequence |
| Sequences.WithoutAppend | src/config/cargo.rs:98-103 | filtering distributes over concatenation |
| Sequences.WithoutDisjoint | src/config/cargo.rs:130-137 | filtering against an exclusion list that shares no element keeps the list unchanged |
| Sequences.WithoutCovered | src/config/cargo.rs:98-103 | filtering against a list that holds every element keeps nothing |
| Sequences.WithoutSameMembers | src/config/cargo.rs:98-103 | only the members of the exclusion list matter, not their order or repeats |
| Sequences.WithoutTwice | src/config/cargo.rs:98-103 | filtering by a, then by b, is filtering by a + b |
| Sequences.ExtendedBySelf | src/config/cargo.rs:98-104 | extending a list by itself changes nothing |
| Sequences.ExtendedAssociative | src/config/cargo.rs:98-104 | extension gives the same list however three layers are grouped |

## Left out

- Serialisation: the `serde` derive, the renames (`all-features`, `no-default-features`, `Z`, `args`) and the `workspace` alias are not modelled.
- The `info!` log line for each removed package is not emitted. The ghost out-parameter `removed` of `Merge` records the removed packages, in order.
- `Config::pick_optional_config` is not part of this model. It is taken to return the primary's value when that is set and the secondary's otherwise, which is how `Cargo.PickOptional` is defined.
- `Mode` is not part of this model beyond its two subcommands, `Test` and `Build`.
- `jobs` is a `usize` in the source and a `nat` here; the merge only copies it, so the width plays no part.
- The seven boolean fields are one `set<Flag>` field, so a single boolean cannot be read without a membership test; the merge's behaviour per flag is the same.
- `Merge` requires `other` to be a different object from `this`, because Rust's borrow rules forbid `&mut self` and `&other` naming the same value.
- `Debug`, `Clone`, and the rest of the configuration (`Config`) are outside this model.
