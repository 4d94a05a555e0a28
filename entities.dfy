/**
 * The records the new-release channel reads and writes: the library items
 * handed over by the host's library query, their media sources, and the
 * channel items the channel builds from them.
 *
 * C#'s nullable strings and nullable integers are `Option` values. C#'s `==`
 * on them is Dafny's datatype equality: two nulls are equal, a null is equal
 * to no value.
 */
module Entities {
  import opened Wrappers

  datatype MediaProtocol = File | Http | Rtmp | Rtsp | Udp | Rtp | Ftp | Mms

  /** One playable variant of an item (a `MediaSourceInfo`). */
  datatype MediaSource = MediaSource(
    Id: Option<string>,
    Path: Option<string>,
    Protocol: MediaProtocol,
    Name: Option<string>,
    Container: Option<string>)

  datatype PersonInfo = PersonInfo(Name: Option<string>, Role: Option<string>)

  /**
   * A movie as the library query returns it. `MediaSources` and `People`
   * hold what the host's `GetMediaSources` and `GetItemPeople` return for
   * this item. Dates and run times are ticks.
   */
  datatype RawItem = RawItem(
    InternalId: int,
    Name: Option<string>,
    ProductionYear: Option<int>,
    Path: Option<string>,
    DateCreated: int,
    PremiereDate: Option<int>,
    RunTimeTicks: Option<int>,
    PrimaryImagePath: Option<string>,
    OfficialRating: Option<string>,
    Overview: Option<string>,
    CommunityRating: Option<real>,
    OriginalTitle: Option<string>,
    Genres: seq<string>,
    Studios: seq<string>,
    ProviderIds: map<string, string>,
    People: seq<PersonInfo>,
    MediaSources: seq<MediaSource>)

  datatype ChannelItemType = Media | Folder
  datatype ChannelMediaContentType = Clip | Podcast | Trailer | Movie | Episode | Song | MovieExtra | TvExtra | GameExtra
  datatype ChannelMediaType = Audio | Video | Photo

  /** One entry of the channel listing (a `ChannelItemInfo`). */
  datatype ChannelItemInfo = ChannelItemInfo(
    Id: string,
    Name: Option<string>,
    ProductionYear: Option<int>,
    DateCreated: int,
    RunTimeTicks: Option<int>,
    ImageUrl: Option<string>,
    Type: ChannelItemType,
    ContentType: ChannelMediaContentType,
    MediaType: ChannelMediaType,
    IsLiveStream: bool,
    OfficialRating: Option<string>,
    Overview: Option<string>,
    PremiereDate: Option<int>,
    Genres: seq<string>,
    CommunityRating: Option<real>,
    OriginalTitle: Option<string>,
    ProviderIds: map<string, string>,
    Studios: seq<string>,
    People: seq<PersonInfo>,
    MediaSources: seq<MediaSource>)

  /** What `GetChannelItems` returns. */
  datatype ChannelItemResult = ChannelItemResult(Items: seq<ChannelItemInfo>, TotalRecordCount: int)

  /** The key under which items are merged: name and production year. */
  datatype Key = Key(Name: Option<string>, ProductionYear: Option<int>)
}
