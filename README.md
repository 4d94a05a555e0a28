# Emby.NewReleases: the new-release aggregation, in Dafny

The Emby plugin "New Releases" publishes a channel that lists recently added
movies. `NewReleasesChannel.GetChannelItems` takes the movies the host's
library query returns and folds them into channel items, one for each
distinct (Name, ProductionYear):

- an item whose `Path` is exactly `""` is skipped; a null path is not;
- the first item with a key builds the channel item. It copies the item's
  descriptive fields, takes the id `MD5("new_release_" + InternalId)`, and
  takes the item's whole media source list. Every source in that list gets
  the id `MD5("new_release_" + Path)` and protocol File. The list also keeps
  any repeated paths: line 140 stores `sources`, and the deduplicated
  `sourceList` built just before it is never used;
- every later item with that key only adds sources. A source is appended
  when its path is not yet in the channel item's growing list. It gets its
  id there, and its protocol is left unchanged.

`GetChannelItemMediaInfo` lists the channel again. It finds the first
channel item with the given id and returns its sources after the first.
`Extensions.DistinctBy` keeps the first element for each key.

## Layout

- `wrappers.dfy`: `Option` (C#'s null) and `Result`.
- `entities.dfy`: the item, media source and channel item records. Nullable
  strings and integers are `Option`s, so C#'s `==` on them is datatype
  equality and null equals null.
- `extensions.dfy`: `DistinctBy`, a `while` loop over a set of seen keys. It
  is proved equal to the specification function `FirstOfEachKey`, and
  lemmas give that function's properties.
- `aggregation.dfy`: the loop as functions. `Step` is one pass of the loop
  body and `Aggregated` is the whole loop. The lemmas characterise
  `Aggregated` independently of the loop: one `GroupRecord` per key, with
  merges described by `FirstOfEachKey`.
- `channel.dfy`: `GetChannelItems` as an imperative method with the source's
  three loops. It is proved to compute `Aggregated`. The file also holds
  `GetChannelItemMediaInfo`.
- `scenarios.dfy`: concrete inputs for the edge cases.

`GetMD5().ToString("N")` is the parameter `hash: string -> string`, so ids
are deterministic by construction. The model also proves which text is
hashed, and that different internal ids give different texts.

## Model

| member | source | states |
|---|---|---|
| Extensions.DistinctBy | Emby.NewReleases/Channel.cs:205-215 | the loop over a set of seen keys yields exactly `FirstOfEachKey(source, keySelector)` |
| Extensions.FirstOfEachKeyIsSubsequence | Emby.NewReleases/Channel.cs:205-215 | the elements yielded are a subsequence of the input, in input order |
| Extensions.FirstOfEachKeyKeys | Emby.NewReleases/Channel.cs:205-215 | every key of the input is the key of some yielded element, and no other key is |
| Extensions.FirstOfEachKeyDistinct | Emby.NewReleases/Channel.cs:205-215 | no two yielded elements share a key |
| Extensions.FirstOfEachKeyCount | Emby.NewReleases/Channel.cs:205-215 | as many elements are yielded as the input has distinct keys |
| Extensions.FirstOfEachKeyFirst | Emby.NewReleases/Channel.cs:205-215 | the element yielded for a key is the first input element with that key |
| Extensions.WithKeyEmpty | Emby.NewReleases/Channel.cs:205-215 | a key has no elements exactly when it is not a key of the input |
| Aggregation.FirstMatch | Emby.NewReleases/Channel.cs:91 | `FirstOrDefault` as an index: none exactly when no element matches, otherwise the first matching element |
| Aggregation.FindKey | Emby.NewReleases/Channel.cs:89-91 | the lookup by exact (Name, ProductionYear) finds nothing exactly when no record has the key, otherwise the first record with it |
| Aggregation.AggregatedIgnoresSkipped | Emby.NewReleases/Channel.cs:87 | the loop gives the same records when the items with path `""` are removed first |
| Aggregation.SkippedItemAddsNothing | Emby.NewReleases/Channel.cs:87 | an item with path `""`, anywhere in the input, adds no record and no source |
| Aggregation.MergeSourcesConcat | Emby.NewReleases/Channel.cs:97-103 | merging two source lists one after the other equals merging their concatenation |
| Aggregation.MergeSourcesAppendsNewPaths | Emby.NewReleases/Channel.cs:97-103 | a merge keeps the existing sources and appends, in input order, the first incoming source for each path not already present, with only its id changed |
| Aggregation.MergeSourcesKeepsExisting | Emby.NewReleases/Channel.cs:97-103 | a merge leaves the existing sources as a prefix of the result |
| Aggregation.MergeSourcesPaths | Emby.NewReleases/Channel.cs:97-103 | after a merge the paths present are those of the existing and the incoming sources |
| Aggregation.MergeSourcesKeepsPathsDistinct | Emby.NewReleases/Channel.cs:97-103 | a list with no repeated path has none after a merge |
| Aggregation.MergeSourcesKeepsSourceIds | Emby.NewReleases/Channel.cs:101-102 | every appended source has the id hashed from `"new_release_"` and its path |
| Aggregation.GroupRecordSnoc | Emby.NewReleases/Channel.cs:89-105 | a later item with the key changes only the record's sources, by merging its own |
| Aggregation.StepNewKey | Emby.NewReleases/Channel.cs:108-142 | an item with a new key appends the record its key's group describes |
| Aggregation.StepKnownKey | Emby.NewReleases/Channel.cs:89-105 | an item with a known key updates that key's record to what the grown group describes, and no other record |
| Aggregation.AggregatedByGroup | Emby.NewReleases/Channel.cs:84-145 | the output is one record per distinct key of the items not skipped, in first-seen order; each is the first item's record with the later items' sources merged in |
| Aggregation.RecordCount | Emby.NewReleases/Channel.cs:150-151 | the record count is the number of distinct (Name, ProductionYear) among the items not skipped |
| Aggregation.RecordKeys | Emby.NewReleases/Channel.cs:89-142 | the records' keys are exactly the keys of the items not skipped, and no two records share a key |
| Aggregation.RecordFromFirstItem | Emby.NewReleases/Channel.cs:118-142 | every field of a record except its sources, the id included, comes from the first item with its key |
| Aggregation.RecordSources | Emby.NewReleases/Channel.cs:97-140 | a record's sources are its first item's whole list, each with id set and protocol File, then the later items' new-path sources with id set and protocol unchanged |
| Aggregation.RecordPathsDistinct | Emby.NewReleases/Channel.cs:97-140 | a record repeats no path when its first item's source list repeats none |
| Aggregation.AggregatedSourceIds | Emby.NewReleases/Channel.cs:101-112 | every source of every record has the id hashed from `"new_release_"` and its path |
| Aggregation.LaterItemKeepsRecords | Emby.NewReleases/Channel.cs:89-105 | a later item removes no record, changes no field except the sources, and only appends sources |
| Aggregation.DigitsTextShape | Emby.NewReleases/Channel.cs:123 | the decimal digits of a number are never empty and never start with a minus sign |
| Aggregation.DigitsTextInjective | Emby.NewReleases/Channel.cs:123 | different numbers have different decimal digits |
| Aggregation.RecordIdTextInjective | Emby.NewReleases/Channel.cs:123 | two items hash the same id text exactly when their internal ids are equal |
| NewReleasesChannel.GetChannelItems | Emby.NewReleases/Channel.cs:71-155 | the loop's items are `Aggregated(libraryItems)`, and `TotalRecordCount` is their number, which equals the number of distinct keys |
| NewReleasesChannel.ExtraSources | Emby.NewReleases/Channel.cs:188-195 | no extra sources for an empty list; otherwise the first source followed by the extras is the whole list |
| NewReleasesChannel.ExtraSourcesCount | Emby.NewReleases/Channel.cs:188-195 | at most one source gives none, otherwise Count-1 sources, those at positions 1 onwards in order |
| NewReleasesChannel.FindById | Emby.NewReleases/Channel.cs:186 | the lookup by id finds nothing exactly when no record has the id, otherwise the first record with it |
| NewReleasesChannel.GetChannelItemMediaInfo | Emby.NewReleases/Channel.cs:181-197 | fails with a null dereference exactly when no listed record has the id; otherwise gives the extra sources of the first record with it |
| Scenarios.TwoFilesOfOneFilm | Emby.NewReleases/Channel.cs:84-197 | two files of one film give one record with both sources, the second with its protocol unchanged; the extra sources are the second file's alone |
| Scenarios.EmptyPathGivesNoRecord | Emby.NewReleases/Channel.cs:87 | an item with path `""` that is alone with its key gives no record |
| Scenarios.NullPathIsKept | Emby.NewReleases/Channel.cs:87 | an item with a null path founds a record |
| Scenarios.NullYearIsItsOwnKey | Emby.NewReleases/Channel.cs:89 | a null production year and the year 2021 give two records |
| Scenarios.RepeatedPathInFirstItemIsKept | Emby.NewReleases/Channel.cs:108-140 | a path repeated in the first item's list stays repeated in its record |
| Scenarios.RepeatedPathInLaterItemIsMergedOnce | Emby.NewReleases/Channel.cs:97-103 | a path repeated in a later item's list is merged once, and a path already present is not merged |

## Left out

- The library query (`GetItemsResult` with its date bounds relative to
  the current time) is not modelled. Its result is the input sequence.
- `GetMediaSources`, `GetLibraryOptions` and `GetItemPeople` are host calls.
  Their results are the `MediaSources` and `People` fields of each input item.
- MD5 and its `"N"` formatting are the `hash` parameter.
- `GetCacheKey` returns a fresh random GUID, so it is not modelled.
- `GetChannelImage` and `GetSupportedChannelImages` read embedded resource
  streams, so they are not modelled.
- `GetChannelFeatures`, `DataVersion`, `Name`, `Description`,
  `ParentalRating` and `IsEnabledFor` are constant metadata.
- Plugin.cs is not part of this model. It holds only a singleton and constant metadata.
- `async`/`Task`, the cancellation token (never checked in the loop) and
  `Log.Info` are not modelled.
- The channel item's records are values. A source is a value too, so the
  in-place mutation of `source.Id` and `source.Protocol` becomes a record
  update. No other code holds those objects, so nothing observable is lost.
- A person is reduced to a name and a role.
- Dates and run times are whole numbers of ticks.
- `CommunityRating` (a float) is a `real`. It is only copied, never computed.
- `DistinctBy` yields lazily in C#. The model returns the whole sequence.
- `DistinctBy` calls `keySelector` once per element and assumes it has no
  side effects.
- The `channelItem is null` test (line 93) can never succeed after
  `items.Exists`, so the model has no branch for it.
- Two behaviours follow the code as written, not what one might expect:
  - A lookup with an unknown id is modelled as a failure (a null
    dereference at line 188), not as an empty result.
  - A new record keeps duplicate paths that occur within its first item's
    source list.
