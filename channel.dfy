/**
 * `NewReleasesChannel`: the listing operation `GetChannelItems`, which runs
 * the aggregation loop, and `GetChannelItemMediaInfo`, which hands out the
 * sources of one listed record beyond its first.
 *
 * The library query, `GetMediaSources`, `GetItemPeople` and `GetMD5` are the
 * host's: their results are the input sequence, the fields of each input
 * item and the parameter `hash`.
 */
module NewReleasesChannel {
  import opened Wrappers
  import opened Entities
  import opened Extensions
  import opened Aggregation

  /**
   * The loop of `GetChannelItems` over the library query's items. The list
   * of records is a local sequence that the loop appends to and updates in
   * place; sources get their id (and, for a new record, protocol File) as
   * the source sets them.
   */
  method GetChannelItems(libraryItems: seq<RawItem>, hash: string -> string) returns (result: ChannelItemResult)
    ensures result.Items == Aggregated(libraryItems, hash)
    ensures result.TotalRecordCount == |result.Items| == |KeysOf(Kept(libraryItems), ItemKey)|
  {
    var items: seq<ChannelItemInfo> := [];
    var n := 0;
    while n < |libraryItems|
      invariant 0 <= n <= |libraryItems|
      invariant items == Aggregated(libraryItems[..n], hash)
    {
      var item := libraryItems[n];
      assert libraryItems[..n + 1][..n] == libraryItems[..n];
      if item.Path == Some("") {
        n := n + 1;
        continue;
      }
      // `items.Exists` followed by `items.FirstOrDefault` with the same key;
      // the `is null` test after them never succeeds
      var found := FindKey(items, ItemKey(item));
      if found.Some? {
        var channelItem := items[found.value];
        var mediaSources := item.MediaSources;
        var merged := channelItem.MediaSources;
        var j := 0;
        while j < |mediaSources|
          invariant 0 <= j <= |mediaSources|
          invariant merged == MergeSources(channelItem.MediaSources, mediaSources[..j], hash)
        {
          var source := mediaSources[j];
          assert mediaSources[..j + 1][..j] == mediaSources[..j];
          if !HasPath(merged, source.Path) {
            source := source.(Id := Some(hash(SourceIdText(source.Path))));
            merged := merged + [source];
          }
          j := j + 1;
        }
        assert mediaSources[..j] == mediaSources;
        items := items[found.value := channelItem.(MediaSources := merged)];
      } else {
        var sources := item.MediaSources;
        // `sourceList` is built and then not used: the record takes `sources`
        var sourceList: seq<MediaSource> := [];
        var j := 0;
        while j < |sources|
          invariant 0 <= j <= |sources| == |item.MediaSources|
          invariant sources[..j] == Stamped(item.MediaSources[..j], hash)
          invariant sources[j..] == item.MediaSources[j..]
          invariant sourceList == FirstOfEachKey(sources[..j], PathOf)
        {
          var source := sources[j];
          source := source.(Id := Some(hash(SourceIdText(source.Path))));
          source := source.(Protocol := File);
          assert source == AsFileSource(item.MediaSources[j], hash) by {
            assert sources[j..][0] == item.MediaSources[j..][0];
          }
          var before := sources[..j];
          sources := sources[j := source];
          assert sources[..j + 1] == before + [source];
          assert sources[..j + 1][..j] == before;
          FirstOfEachKeyKeys(before, PathOf);
          HasPathKeys(sourceList, source.Path);
          if !HasPath(sourceList, source.Path) {
            sourceList := sourceList + [source];
          }
          j := j + 1;
        }
        assert sources == Stamped(item.MediaSources, hash) by {
          assert sources[..j] == sources;
          assert item.MediaSources[..j] == item.MediaSources;
        }
        items := items + [ChannelItemOf(item, sources, hash)];
      }
      n := n + 1;
    }
    assert libraryItems[..n] == libraryItems;
    RecordCount(libraryItems, hash);
    result := ChannelItemResult(items, |items|);
  }

  /** What the lookup raises when no record has the id: `FirstOrDefault` gave null and line 188 dereferences it. */
  datatype MediaInfoError = NullReference

  /**
   * `GetRange(0, 0)` for a list of at most one source, `GetRange(1, Count - 1)`
   * otherwise: the sources after the first.
   */
  function ExtraSources(sources: seq<MediaSource>): (r: seq<MediaSource>)
    ensures sources == [] ==> r == []
    ensures sources != [] ==> [sources[0]] + r == sources
  {
    if |sources| <= 1 then [] else sources[1..]
  }

  /** `channel.Items.FirstOrDefault(i => i.Id == id)`, as an index. */
  function FindById(items: seq<ChannelItemInfo>, id: string): (r: Option<nat>)
    ensures r.None? <==> forall i :: 0 <= i < |items| ==> items[i].Id != id
    ensures r.Some? ==> r.value < |items| && items[r.value].Id == id
    ensures r.Some? ==> forall i :: 0 <= i < r.value ==> items[i].Id != id
  {
    FirstMatch(items, (record: ChannelItemInfo) => record.Id == id)
  }

  /**
   * `GetChannelItemMediaInfo`: list the channel again and return the sources
   * beyond the first of the first record with the given id.
   */
  function GetChannelItemMediaInfo(id: string, libraryItems: seq<RawItem>, hash: string -> string)
    : (r: Result<seq<MediaSource>, MediaInfoError>)
    ensures var records := Aggregated(libraryItems, hash);
      r.Failure? <==> forall j :: 0 <= j < |records| ==> records[j].Id != id
    ensures var records := Aggregated(libraryItems, hash);
      r.Success? ==>
        exists j :: 0 <= j < |records| && records[j].Id == id
          && (forall i :: 0 <= i < j ==> records[i].Id != id)
          && r.value == ExtraSources(records[j].MediaSources)
  {
    var records := Aggregated(libraryItems, hash);
    match FindById(records, id)
    case None => Failure(NullReference)
    case Some(j) => Success(ExtraSources(records[j].MediaSources))
  }

  /** The extra sources are all but one of a record's sources, in order; none when it has at most one. */
  lemma ExtraSourcesCount(sources: seq<MediaSource>)
    ensures |ExtraSources(sources)| == if |sources| <= 1 then 0 else |sources| - 1
    ensures forall i :: 0 <= i < |ExtraSources(sources)| ==> ExtraSources(sources)[i] == sources[i + 1]
  {
    if sources != [] {
      assert [sources[0]] + ExtraSources(sources) == sources;
      forall i | 0 <= i < |ExtraSources(sources)| ensures ExtraSources(sources)[i] == sources[i + 1] {
        assert ([sources[0]] + ExtraSources(sources))[i + 1] == ExtraSources(sources)[i];
      }
    }
  }
}
