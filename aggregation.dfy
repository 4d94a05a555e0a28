/**
 * The fold at the heart of `NewReleasesChannel.GetChannelItems`, as
 * functions: `Step` is one pass of the `foreach` body, `Aggregated` the whole
 * loop. The method in module NewReleasesChannel is proved to compute
 * `Aggregated`; the lemmas here say what `Aggregated` is.
 *
 * `GetMD5().ToString("N")` is the parameter `hash`: a deterministic map from
 * a string to its digest text.
 */
module Aggregation {
  import opened Wrappers
  import opened Entities
  import opened Extensions

  const IdPrefix := "new_release_"

  function DigitChar(d: nat): char
    requires d < 10
  {
    "0123456789"[d]
  }

  function DigitsText(n: nat): string
    decreases n
  {
    if n < 10 then [DigitChar(n)] else DigitsText(n / 10) + [DigitChar(n % 10)]
  }

  /** `long.ToString()`: decimal digits, with a leading minus sign when negative. */
  function DecimalText(n: int): string
  {
    if n < 0 then "-" + DigitsText(-n) else DigitsText(n)
  }

  /** The text hashed into a channel item's id: `$"new_release_{item.InternalId}"`. */
  function RecordIdText(internalId: int): string
  {
    IdPrefix + DecimalText(internalId)
  }

  /** The text hashed into a media source's id: `$"new_release_{source.Path}"`; a null path interpolates as nothing. */
  function SourceIdText(path: Option<string>): string
  {
    IdPrefix + (if path.Some? then path.value else "")
  }

  function ItemKey(item: RawItem): Key
  {
    Key(item.Name, item.ProductionYear)
  }

  function RecordKey(record: ChannelItemInfo): Key
  {
    Key(record.Name, record.ProductionYear)
  }

  function PathOf(source: MediaSource): Option<string>
  {
    source.Path
  }

  /** The test at the head of the loop: only a path equal to `string.Empty` is skipped, a null path is not. */
  predicate IsSkipped(item: RawItem)
  {
    item.Path == Some("")
  }

  /** The items the loop does not skip, in input order. */
  function Kept(raw: seq<RawItem>): seq<RawItem>
    decreases |raw|
  {
    if raw == [] then []
    else if IsSkipped(raw[|raw| - 1]) then Kept(raw[..|raw| - 1])
    else Kept(raw[..|raw| - 1]) + [raw[|raw| - 1]]
  }

  /** A source with its id set from its path (lines 101 and 112). */
  function WithSourceId(source: MediaSource, hash: string -> string): MediaSource
  {
    source.(Id := Some(hash(SourceIdText(source.Path))))
  }

  /** A source of a new record: id set from its path and protocol set to File (lines 112-113). */
  function AsFileSource(source: MediaSource, hash: string -> string): MediaSource
  {
    WithSourceId(source, hash).(Protocol := File)
  }

  function Stamped(sources: seq<MediaSource>, hash: string -> string): seq<MediaSource>
  {
    seq(|sources|, i requires 0 <= i < |sources| => AsFileSource(sources[i], hash))
  }

  function IdStamped(sources: seq<MediaSource>, hash: string -> string): seq<MediaSource>
  {
    seq(|sources|, i requires 0 <= i < |sources| => WithSourceId(sources[i], hash))
  }

  /** `sources.Exists(s => s.Path == path)`. */
  predicate HasPath(sources: seq<MediaSource>, path: Option<string>)
  {
    exists i | 0 <= i < |sources| :: sources[i].Path == path
  }

  /**
   * The merge loop of lines 97-103: each incoming source whose path is not
   * yet in the growing list gets its id and is appended.
   */
  function MergeSources(existing: seq<MediaSource>, incoming: seq<MediaSource>, hash: string -> string): seq<MediaSource>
    decreases |incoming|
  {
    if incoming == [] then existing
    else
      var merged := MergeSources(existing, incoming[..|incoming| - 1], hash);
      var source := incoming[|incoming| - 1];
      if HasPath(merged, source.Path) then merged else merged + [WithSourceId(source, hash)]
  }

  /** The channel item built at lines 118-142, with the given media sources. */
  function ChannelItemOf(item: RawItem, sources: seq<MediaSource>, hash: string -> string): ChannelItemInfo
  {
    ChannelItemInfo(
      Id := hash(RecordIdText(item.InternalId)),
      Name := item.Name,
      ProductionYear := item.ProductionYear,
      DateCreated := item.DateCreated,
      RunTimeTicks := item.RunTimeTicks,
      ImageUrl := item.PrimaryImagePath,
      Type := Media,
      ContentType := Movie,
      MediaType := Video,
      IsLiveStream := false,
      OfficialRating := item.OfficialRating,
      Overview := item.Overview,
      PremiereDate := item.PremiereDate,
      Genres := item.Genres,
      CommunityRating := item.CommunityRating,
      OriginalTitle := item.OriginalTitle,
      ProviderIds := item.ProviderIds,
      Studios := item.Studios,
      People := item.People,
      MediaSources := sources)
  }

  /**
   * The record a first-seen item founds. Its sources are the item's whole
   * list, duplicates included: line 140 stores `sources`, not the
   * deduplicated `sourceList`.
   */
  function NewRecord(item: RawItem, hash: string -> string): ChannelItemInfo
  {
    ChannelItemOf(item, Stamped(item.MediaSources, hash), hash)
  }

  /** `FirstOrDefault(matches)` on a list, as the index of the element found. */
  function FirstMatch<T>(s: seq<T>, matches: T -> bool): (r: Option<nat>)
    ensures r.None? <==> forall i :: 0 <= i < |s| ==> !matches(s[i])
    ensures r.Some? ==> r.value < |s| && matches(s[r.value])
    ensures r.Some? ==> forall i :: 0 <= i < r.value ==> !matches(s[i])
    decreases |s|
  {
    if s == [] then None
    else if matches(s[0]) then Some(0)
    else match FirstMatch(s[1..], matches)
      case None => None
      case Some(j) => Some(j + 1)
  }

  /** `items.FirstOrDefault(i => i.Name == item.Name && i.ProductionYear == item.ProductionYear)`. */
  function FindKey(items: seq<ChannelItemInfo>, k: Key): (r: Option<nat>)
    ensures r.None? <==> forall i :: 0 <= i < |items| ==> RecordKey(items[i]) != k
    ensures r.Some? ==> r.value < |items| && RecordKey(items[r.value]) == k
    ensures r.Some? ==> forall i :: 0 <= i < r.value ==> RecordKey(items[i]) != k
  {
    FirstMatch(items, (record: ChannelItemInfo) => RecordKey(record) == k)
  }

  /** One pass of the loop body (lines 87-142). */
  function Step(items: seq<ChannelItemInfo>, item: RawItem, hash: string -> string): seq<ChannelItemInfo>
  {
    if IsSkipped(item) then items
    else match FindKey(items, ItemKey(item))
      case Some(j) => items[j := items[j].(MediaSources := MergeSources(items[j].MediaSources, item.MediaSources, hash))]
      case None => items + [NewRecord(item, hash)]
  }

  /** The list `items` after the loop has run over `raw`. */
  function Aggregated(raw: seq<RawItem>, hash: string -> string): seq<ChannelItemInfo>
    decreases |raw|
  {
    if raw == [] then [] else Step(Aggregated(raw[..|raw| - 1], hash), raw[|raw| - 1], hash)
  }

  // ---------------------------------------------------------------------
  // Reference description: one record per key, built from the key's group
  // ---------------------------------------------------------------------

  /** The media sources of the items, one item after the other. */
  function AllSources(items: seq<RawItem>): seq<MediaSource>
    decreases |items|
  {
    if items == [] then [] else AllSources(items[..|items| - 1]) + items[|items| - 1].MediaSources
  }

  /** The sources whose path is not in `paths`, in order. */
  function WithoutPaths(sources: seq<MediaSource>, paths: set<Option<string>>): seq<MediaSource>
    decreases |sources|
  {
    if sources == [] then []
    else if sources[|sources| - 1].Path in paths then WithoutPaths(sources[..|sources| - 1], paths)
    else WithoutPaths(sources[..|sources| - 1], paths) + [sources[|sources| - 1]]
  }

  /**
   * The record for the items sharing one key, given in input order: the
   * first one's record, with the sources of the later ones merged in.
   */
  function GroupRecord(group: seq<RawItem>, hash: string -> string): ChannelItemInfo
    requires group != []
  {
    var founder := NewRecord(group[0], hash);
    founder.(MediaSources := MergeSources(founder.MediaSources, AllSources(group[1..]), hash))
  }

  predicate SourceIdsFromPaths(sources: seq<MediaSource>, hash: string -> string)
  {
    forall i :: 0 <= i < |sources| ==> sources[i].Id == Some(hash(SourceIdText(sources[i].Path)))
  }

  predicate PathsDistinct(sources: seq<MediaSource>)
  {
    forall i, j :: 0 <= i < j < |sources| ==> sources[i].Path != sources[j].Path
  }

  // ---------------------------------------------------------------------
  // Skipped items
  // ---------------------------------------------------------------------

  lemma {:induction false} KeptConcat(a: seq<RawItem>, b: seq<RawItem>)
    ensures Kept(a + b) == Kept(a) + Kept(b)
    decreases |b|
  {
    if b == [] {
      assert a + b == a;
    } else {
      var b' := b[..|b| - 1];
      assert (a + b)[..|a + b| - 1] == a + b';
      assert (a + b)[|a + b| - 1] == b[|b| - 1];
      KeptConcat(a, b');
    }
  }

  /** The loop gives the same list whether or not the skipped items are there. */
  lemma {:induction false} AggregatedIgnoresSkipped(raw: seq<RawItem>, hash: string -> string)
    ensures Aggregated(raw, hash) == Aggregated(Kept(raw), hash)
    decreases |raw|
  {
    if raw != [] {
      var raw' := raw[..|raw| - 1];
      var x := raw[|raw| - 1];
      AggregatedIgnoresSkipped(raw', hash);
      if !IsSkipped(x) {
        var k := Kept(raw);
        assert k[..|k| - 1] == Kept(raw');
      }
    }
  }

  /** An item whose path is `""`, wherever it stands, adds no record and no source. */
  lemma SkippedItemAddsNothing(before: seq<RawItem>, item: RawItem, after: seq<RawItem>, hash: string -> string)
    requires IsSkipped(item)
    ensures Aggregated(before + [item] + after, hash) == Aggregated(before + after, hash)
  {
    KeptConcat(before + [item], after);
    KeptConcat(before, [item]);
    KeptConcat(before, after);
    assert Kept([item]) == [];
    AggregatedIgnoresSkipped(before + [item] + after, hash);
    AggregatedIgnoresSkipped(before + after, hash);
  }

  // ---------------------------------------------------------------------
  // Merging sources
  // ---------------------------------------------------------------------

  lemma HasPathKeys(sources: seq<MediaSource>, path: Option<string>)
    ensures HasPath(sources, path) <==> path in KeysOf(sources, PathOf)
  {
    if path in KeysOf(sources, PathOf) {
      var i :| 0 <= i < |sources| && PathOf(sources[i]) == path;
    }
  }

  lemma IdStampedKeys(sources: seq<MediaSource>, hash: string -> string)
    ensures KeysOf(IdStamped(sources, hash), PathOf) == KeysOf(sources, PathOf)
  {
    var t := IdStamped(sources, hash);
    forall p | p in KeysOf(sources, PathOf) ensures p in KeysOf(t, PathOf) {
      var i :| 0 <= i < |sources| && PathOf(sources[i]) == p;
      assert PathOf(t[i]) == p;
    }
  }

  lemma StampedKeys(sources: seq<MediaSource>, hash: string -> string)
    ensures KeysOf(Stamped(sources, hash), PathOf) == KeysOf(sources, PathOf)
  {
    var t := Stamped(sources, hash);
    forall p | p in KeysOf(sources, PathOf) ensures p in KeysOf(t, PathOf) {
      var i :| 0 <= i < |sources| && PathOf(sources[i]) == p;
      assert PathOf(t[i]) == p;
    }
  }

  lemma {:induction false} WithoutPathsKeys(sources: seq<MediaSource>, paths: set<Option<string>>)
    ensures KeysOf(WithoutPaths(sources, paths), PathOf) == KeysOf(sources, PathOf) - paths
    decreases |sources|
  {
    if sources != [] {
      var s' := sources[..|sources| - 1];
      var x := sources[|sources| - 1];
      assert sources == s' + [x];
      WithoutPathsKeys(s', paths);
      KeysOfSnoc(s', x, PathOf);
      KeysOfSnoc(WithoutPaths(s', paths), x, PathOf);
    }
  }

  /** Merging in two lists one after the other is merging in their concatenation. */
  lemma {:induction false} MergeSourcesConcat(existing: seq<MediaSource>, a: seq<MediaSource>, b: seq<MediaSource>, hash: string -> string)
    ensures MergeSources(existing, a + b, hash) == MergeSources(MergeSources(existing, a, hash), b, hash)
    decreases |b|
  {
    if b == [] {
      assert a + b == a;
    } else {
      var b' := b[..|b| - 1];
      assert (a + b)[..|a + b| - 1] == a + b';
      assert (a + b)[|a + b| - 1] == b[|b| - 1];
      MergeSourcesConcat(existing, a, b', hash);
    }
  }

  /**
   * What a merge does: the existing sources stay as they are, and after them
   * come the incoming sources whose path is new, the first one for each path,
   * in input order, each with its id set and its other fields, the protocol
   * among them, unchanged.
   */
  lemma {:induction false} MergeSourcesAppendsNewPaths(existing: seq<MediaSource>, incoming: seq<MediaSource>, hash: string -> string)
    ensures MergeSources(existing, incoming, hash)
         == existing + IdStamped(FirstOfEachKey(WithoutPaths(incoming, KeysOf(existing, PathOf)), PathOf), hash)
    decreases |incoming|
  {
    var known := KeysOf(existing, PathOf);
    if incoming == [] {
      assert IdStamped([], hash) == [];
    } else {
      var inc' := incoming[..|incoming| - 1];
      var x := incoming[|incoming| - 1];
      assert incoming == inc' + [x];
      var w' := WithoutPaths(inc', known);
      var f' := FirstOfEachKey(w', PathOf);
      var merged := MergeSources(existing, inc', hash);
      MergeSourcesAppendsNewPaths(existing, inc', hash);
      assert merged == existing + IdStamped(f', hash);
      // the paths already in the list are those of `existing` and of `inc'`
      KeysOfConcat(existing, IdStamped(f', hash), PathOf);
      IdStampedKeys(f', hash);
      FirstOfEachKeyKeys(w', PathOf);
      WithoutPathsKeys(inc', known);
      assert KeysOf(merged, PathOf) == known + (KeysOf(inc', PathOf) - known);
      HasPathKeys(merged, x.Path);
      if x.Path in known {
        assert WithoutPaths(incoming, known) == w';
      } else {
        assert WithoutPaths(incoming, known) == w' + [x];
        assert (w' + [x])[..|w'|] == w';
        if x.Path in KeysOf(w', PathOf) {
          assert FirstOfEachKey(w' + [x], PathOf) == f';
        } else {
          assert FirstOfEachKey(w' + [x], PathOf) == f' + [x];
          assert IdStamped(f' + [x], hash) == IdStamped(f', hash) + [WithSourceId(x, hash)];
        }
      }
    }
  }

  /** A merge never removes or changes a source already in the list. */
  lemma MergeSourcesKeepsExisting(existing: seq<MediaSource>, incoming: seq<MediaSource>, hash: string -> string)
    ensures |MergeSources(existing, incoming, hash)| >= |existing|
    ensures MergeSources(existing, incoming, hash)[..|existing|] == existing
  {
    MergeSourcesAppendsNewPaths(existing, incoming, hash);
  }

  /** After a merge every incoming path is in the list, and no other path was added. */
  lemma MergeSourcesPaths(existing: seq<MediaSource>, incoming: seq<MediaSource>, hash: string -> string)
    ensures KeysOf(MergeSources(existing, incoming, hash), PathOf) == KeysOf(existing, PathOf) + KeysOf(incoming, PathOf)
  {
    var known := KeysOf(existing, PathOf);
    var w := WithoutPaths(incoming, known);
    var f := FirstOfEachKey(w, PathOf);
    MergeSourcesAppendsNewPaths(existing, incoming, hash);
    KeysOfConcat(existing, IdStamped(f, hash), PathOf);
    IdStampedKeys(f, hash);
    FirstOfEachKeyKeys(w, PathOf);
    WithoutPathsKeys(incoming, known);
  }

  /** A list without repeated paths stays so through a merge. */
  lemma {:induction false} MergeSourcesKeepsPathsDistinct(existing: seq<MediaSource>, incoming: seq<MediaSource>, hash: string -> string)
    requires PathsDistinct(existing)
    ensures PathsDistinct(MergeSources(existing, incoming, hash))
    decreases |incoming|
  {
    if incoming != [] {
      var inc' := incoming[..|incoming| - 1];
      MergeSourcesKeepsPathsDistinct(existing, inc', hash);
    }
  }

  /** Every source a merge appends has its id computed from its path. */
  lemma {:induction false} MergeSourcesKeepsSourceIds(existing: seq<MediaSource>, incoming: seq<MediaSource>, hash: string -> string)
    requires SourceIdsFromPaths(existing, hash)
    ensures SourceIdsFromPaths(MergeSources(existing, incoming, hash), hash)
    decreases |incoming|
  {
    if incoming != [] {
      MergeSourcesKeepsSourceIds(existing, incoming[..|incoming| - 1], hash);
    }
  }

  // ---------------------------------------------------------------------
  // One record per key
  // ---------------------------------------------------------------------

  lemma GroupRecordSingle(item: RawItem, hash: string -> string)
    ensures GroupRecord([item], hash) == NewRecord(item, hash)
  {
    assert [item][1..] == [];
  }

  /** A later item of the group changes only the record's sources, by a merge. */
  lemma GroupRecordSnoc(group: seq<RawItem>, item: RawItem, hash: string -> string)
    requires group != []
    ensures var r := GroupRecord(group, hash);
      GroupRecord(group + [item], hash) == r.(MediaSources := MergeSources(r.MediaSources, item.MediaSources, hash))
  {
    var g := group + [item];
    assert g[0] == group[0];
    assert g[1..] == group[1..] + [item];
    assert g[1..][..|g[1..]| - 1] == group[1..];
    var founder := NewRecord(group[0], hash);
    MergeSourcesConcat(founder.MediaSources, AllSources(group[1..]), item.MediaSources, hash);
  }

  /**
   * `records` holds one record per key of `kept`, in the order of the keys'
   * first items, each the `GroupRecord` of the items with its key.
   */
  ghost predicate RecordsByGroup(records: seq<ChannelItemInfo>, kept: seq<RawItem>, hash: string -> string)
  {
    var firsts := FirstOfEachKey(kept, ItemKey);
    && |records| == |firsts|
    && forall j :: 0 <= j < |records| ==>
         && RecordKey(records[j]) == ItemKey(firsts[j])
         && WithKey(kept, ItemKey, ItemKey(firsts[j])) != []
         && records[j] == GroupRecord(WithKey(kept, ItemKey, ItemKey(firsts[j])), hash)
  }

  /** The step for an item whose key has no record yet appends the key's record. */
  lemma StepNewKey(records: seq<ChannelItemInfo>, kept: seq<RawItem>, item: RawItem, hash: string -> string)
    requires RecordsByGroup(records, kept, hash)
    requires !IsSkipped(item)
    requires ItemKey(item) !in KeysOf(kept, ItemKey)
    ensures RecordsByGroup(Step(records, item, hash), kept + [item], hash)
  {
    var firsts := FirstOfEachKey(kept, ItemKey);
    var k := ItemKey(item);
    var kept2 := kept + [item];
    assert kept2[..|kept2| - 1] == kept;
    FirstOfEachKeyKeys(kept, ItemKey);
    assert FindKey(records, k).None? by {
      forall i | 0 <= i < |records| ensures RecordKey(records[i]) != k {
        assert ItemKey(firsts[i]) in KeysOf(firsts, ItemKey);
      }
    }
    var records2 := records + [NewRecord(item, hash)];
    assert Step(records, item, hash) == records2;
    var firsts2 := firsts + [item];
    assert FirstOfEachKey(kept2, ItemKey) == firsts2;
    WithKeyEmpty(kept, ItemKey, k);
    assert WithKey(kept2, ItemKey, k) == [item];
    GroupRecordSingle(item, hash);
    forall j | 0 <= j < |records2|
      ensures && RecordKey(records2[j]) == ItemKey(firsts2[j])
              && WithKey(kept2, ItemKey, ItemKey(firsts2[j])) != []
              && records2[j] == GroupRecord(WithKey(kept2, ItemKey, ItemKey(firsts2[j])), hash)
    {
      if j < |records| {
        assert ItemKey(firsts[j]) in KeysOf(firsts, ItemKey);
        assert WithKey(kept2, ItemKey, ItemKey(firsts[j])) == WithKey(kept, ItemKey, ItemKey(firsts[j]));
      }
    }
  }

  /** The step for an item whose key has a record merges the item's sources into it. */
  lemma StepKnownKey(records: seq<ChannelItemInfo>, kept: seq<RawItem>, item: RawItem, hash: string -> string)
    requires RecordsByGroup(records, kept, hash)
    requires !IsSkipped(item)
    requires ItemKey(item) in KeysOf(kept, ItemKey)
    ensures RecordsByGroup(Step(records, item, hash), kept + [item], hash)
  {
    var firsts := FirstOfEachKey(kept, ItemKey);
    var k := ItemKey(item);
    var kept2 := kept + [item];
    assert kept2[..|kept2| - 1] == kept;
    FirstOfEachKeyKeys(kept, ItemKey);
    FirstOfEachKeyDistinct(kept, ItemKey);
    assert FirstOfEachKey(kept2, ItemKey) == firsts;
    var i0 :| 0 <= i0 < |firsts| && ItemKey(firsts[i0]) == k;
    assert RecordKey(records[i0]) == k;
    var j0 := FindKey(records, k).value;
    assert ItemKey(firsts[j0]) == k;
    var merged := records[j0].(MediaSources := MergeSources(records[j0].MediaSources, item.MediaSources, hash));
    var records2 := records[j0 := merged];
    assert Step(records, item, hash) == records2;
    forall j | 0 <= j < |records2|
      ensures && RecordKey(records2[j]) == ItemKey(firsts[j])
              && WithKey(kept2, ItemKey, ItemKey(firsts[j])) != []
              && records2[j] == GroupRecord(WithKey(kept2, ItemKey, ItemKey(firsts[j])), hash)
    {
      var g := WithKey(kept, ItemKey, ItemKey(firsts[j]));
      if j == j0 {
        assert WithKey(kept2, ItemKey, k) == g + [item];
        GroupRecordSnoc(g, item, hash);
      } else {
        assert ItemKey(firsts[j]) != k;
        assert WithKey(kept2, ItemKey, ItemKey(firsts[j])) == g;
      }
    }
  }

  /**
   * The output of the loop: one record for each distinct (Name,
   * ProductionYear) among the items not skipped, in the order in which the
   * keys first occur; each record is the record of the first item with its
   * key, with the sources of the later items with that key merged in.
   */
  lemma {:induction false} AggregatedByGroup(raw: seq<RawItem>, hash: string -> string)
    ensures RecordsByGroup(Aggregated(raw, hash), Kept(raw), hash)
    decreases |raw|
  {
    if raw != [] {
      var raw' := raw[..|raw| - 1];
      var x := raw[|raw| - 1];
      AggregatedByGroup(raw', hash);
      if !IsSkipped(x) {
        assert Kept(raw) == Kept(raw') + [x];
        if ItemKey(x) in KeysOf(Kept(raw'), ItemKey) {
          StepKnownKey(Aggregated(raw', hash), Kept(raw'), x, hash);
        } else {
          StepNewKey(Aggregated(raw', hash), Kept(raw'), x, hash);
        }
      }
    }
  }

  // ---------------------------------------------------------------------
  // Consequences for the records
  // ---------------------------------------------------------------------

  /** `TotalRecordCount`: the number of records is the number of distinct keys among the items not skipped. */
  lemma RecordCount(raw: seq<RawItem>, hash: string -> string)
    ensures |Aggregated(raw, hash)| == |KeysOf(Kept(raw), ItemKey)|
  {
    AggregatedByGroup(raw, hash);
    FirstOfEachKeyCount(Kept(raw), ItemKey);
  }

  /** The records' keys are exactly the keys of the items not skipped, each once. */
  lemma RecordKeys(raw: seq<RawItem>, hash: string -> string)
    ensures var records := Aggregated(raw, hash);
      && KeysOf(records, RecordKey) == KeysOf(Kept(raw), ItemKey)
      && forall i, j :: 0 <= i < j < |records| ==> RecordKey(records[i]) != RecordKey(records[j])
  {
    var records := Aggregated(raw, hash);
    var firsts := FirstOfEachKey(Kept(raw), ItemKey);
    AggregatedByGroup(raw, hash);
    FirstOfEachKeyKeys(Kept(raw), ItemKey);
    FirstOfEachKeyDistinct(Kept(raw), ItemKey);
    forall k | k in KeysOf(firsts, ItemKey) ensures k in KeysOf(records, RecordKey) {
      var i :| 0 <= i < |firsts| && ItemKey(firsts[i]) == k;
      assert RecordKey(records[i]) == k;
    }
  }

  /**
   * First seen wins: every field of a record but its sources, the id among
   * them, comes from the first item not skipped with the record's key.
   */
  lemma RecordFromFirstItem(raw: seq<RawItem>, hash: string -> string, j: nat)
    requires j < |Aggregated(raw, hash)|
    ensures var record := Aggregated(raw, hash)[j];
      var group := WithKey(Kept(raw), ItemKey, RecordKey(record));
      && group != []
      && record == NewRecord(group[0], hash).(MediaSources := record.MediaSources)
      && record.Id == hash(RecordIdText(group[0].InternalId))
  {
    AggregatedByGroup(raw, hash);
  }

  /**
   * A record's sources: all of its first item's sources, duplicate paths
   * included, each with its id set and protocol File; then, from the later
   * items with the same key in input order, the first source for each path
   * not seen before, with its id set and its protocol unchanged.
   */
  lemma RecordSources(raw: seq<RawItem>, hash: string -> string, j: nat)
    requires j < |Aggregated(raw, hash)|
    ensures var record := Aggregated(raw, hash)[j];
      var group := WithKey(Kept(raw), ItemKey, RecordKey(record));
      && group != []
      && record.MediaSources
         == Stamped(group[0].MediaSources, hash)
            + IdStamped(FirstOfEachKey(WithoutPaths(AllSources(group[1..]), KeysOf(group[0].MediaSources, PathOf)), PathOf), hash)
  {
    AggregatedByGroup(raw, hash);
    var group := WithKey(Kept(raw), ItemKey, RecordKey(Aggregated(raw, hash)[j]));
    MergeSourcesAppendsNewPaths(Stamped(group[0].MediaSources, hash), AllSources(group[1..]), hash);
    StampedKeys(group[0].MediaSources, hash);
  }

  /** A record has no repeated path when its first item's source list has none. */
  lemma RecordPathsDistinct(raw: seq<RawItem>, hash: string -> string, j: nat)
    requires j < |Aggregated(raw, hash)|
    requires var group := WithKey(Kept(raw), ItemKey, RecordKey(Aggregated(raw, hash)[j]));
      group != [] && PathsDistinct(group[0].MediaSources)
    ensures PathsDistinct(Aggregated(raw, hash)[j].MediaSources)
  {
    AggregatedByGroup(raw, hash);
    var group := WithKey(Kept(raw), ItemKey, RecordKey(Aggregated(raw, hash)[j]));
    var founder := Stamped(group[0].MediaSources, hash);
    assert PathsDistinct(founder) by {
      forall a, b | 0 <= a < b < |founder| ensures founder[a].Path != founder[b].Path {
        assert founder[a].Path == group[0].MediaSources[a].Path;
        assert founder[b].Path == group[0].MediaSources[b].Path;
      }
    }
    MergeSourcesKeepsPathsDistinct(founder, AllSources(group[1..]), hash);
  }

  /** Every source of every record has the id hashed from `"new_release_"` and its path. */
  lemma {:induction false} AggregatedSourceIds(raw: seq<RawItem>, hash: string -> string)
    ensures forall j :: 0 <= j < |Aggregated(raw, hash)| ==> SourceIdsFromPaths(Aggregated(raw, hash)[j].MediaSources, hash)
    decreases |raw|
  {
    if raw != [] {
      var raw' := raw[..|raw| - 1];
      var x := raw[|raw| - 1];
      var records' := Aggregated(raw', hash);
      AggregatedSourceIds(raw', hash);
      if !IsSkipped(x) {
        match FindKey(records', ItemKey(x))
        case Some(i) =>
          assert SourceIdsFromPaths(records'[i].MediaSources, hash);
          MergeSourcesKeepsSourceIds(records'[i].MediaSources, x.MediaSources, hash);
        case None =>
          var founded := NewRecord(x, hash);
          assert SourceIdsFromPaths(founded.MediaSources, hash);
          assert Aggregated(raw, hash) == records' + [founded];
      }
    }
  }

  /**
   * A later item never changes what the records already hold: no record is
   * removed, no field but the sources changes, and the sources only grow at
   * the end.
   */
  lemma LaterItemKeepsRecords(raw: seq<RawItem>, item: RawItem, hash: string -> string)
    ensures var before := Aggregated(raw, hash);
      var after := Aggregated(raw + [item], hash);
      && |before| <= |after| <= |before| + 1
      && forall j :: 0 <= j < |before| ==>
           && after[j] == before[j].(MediaSources := after[j].MediaSources)
           && |before[j].MediaSources| <= |after[j].MediaSources|
           && after[j].MediaSources[..|before[j].MediaSources|] == before[j].MediaSources
  {
    var raw2 := raw + [item];
    assert raw2[..|raw2| - 1] == raw;
    var before := Aggregated(raw, hash);
    if !IsSkipped(item) {
      match FindKey(before, ItemKey(item))
      case Some(i) =>
        MergeSourcesKeepsExisting(before[i].MediaSources, item.MediaSources, hash);
      case None =>
    }
  }

  // ---------------------------------------------------------------------
  // Record ids
  // ---------------------------------------------------------------------

  lemma DigitsTextShape(n: nat)
    ensures |DigitsText(n)| >= 1
    ensures DigitsText(n)[0] != '-'
    ensures n >= 10 ==> |DigitsText(n)| >= 2
  {
    if n >= 10 {
      DigitsTextShape(n / 10);
    }
  }

  lemma {:induction false} DigitsTextInjective(n: nat, m: nat)
    requires DigitsText(n) == DigitsText(m)
    ensures n == m
    decreases n + m
  {
    DigitsTextShape(n);
    DigitsTextShape(m);
    var t := DigitsText(n);
    if n >= 10 && m >= 10 {
      assert t[|t| - 1] == DigitChar(n % 10) == DigitChar(m % 10);
      assert t[..|t| - 1] == DigitsText(n / 10) == DigitsText(m / 10);
      DigitsTextInjective(n / 10, m / 10);
    } else {
      assert t[0] == DigitChar(n) == DigitChar(m);
    }
  }

  /** Items with different internal ids hash different texts into their record ids. */
  lemma RecordIdTextInjective(a: int, b: int)
    ensures RecordIdText(a) == RecordIdText(b) <==> a == b
  {
    if RecordIdText(a) == RecordIdText(b) {
      var ta := DecimalText(a);
      var tb := DecimalText(b);
      assert ta == RecordIdText(a)[|IdPrefix|..];
      assert tb == RecordIdText(b)[|IdPrefix|..];
      DigitsTextShape(if a < 0 then -a else a);
      DigitsTextShape(if b < 0 then -b else b);
      if a < 0 && b < 0 {
        assert ta[1..] == DigitsText(-a) && tb[1..] == DigitsText(-b);
        DigitsTextInjective(-a, -b);
      } else if a >= 0 && b >= 0 {
        DigitsTextInjective(a, b);
      }
    }
  }
}
