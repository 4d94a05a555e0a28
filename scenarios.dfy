/** Concrete listings that show the aggregation's edge cases. */
module Scenarios {
  import opened Wrappers
  import opened Entities
  import opened Aggregation
  import opened NewReleasesChannel

  function SourceAt(path: Option<string>): MediaSource
  {
    MediaSource(None, path, Http, None, Some("mkv"))
  }

  function Movie(internalId: int, name: string, year: Option<int>, path: Option<string>, sources: seq<MediaSource>): RawItem
  {
    RawItem(internalId, Some(name), year, path, 0, None, None, None, None, None, None, None, [], [], map[], [], sources)
  }

  /**
   * Two files of one film: one record with both sources, the first made a
   * File source, the second keeping its protocol; the extra sources are the
   * second one alone.
   */
  lemma TwoFilesOfOneFilm(hash: string -> string)
    ensures var a := SourceAt(Some("/a.mkv"));
      var b := SourceAt(Some("/b.mkv"));
      var raw := [Movie(1, "Dune", Some(2021), Some("/a.mkv"), [a]), Movie(2, "Dune", Some(2021), Some("/b.mkv"), [b])];
      var records := Aggregated(raw, hash);
      && |records| == 1
      && records[0].Name == Some("Dune")
      && records[0].Id == hash("new_release_1")
      && records[0].MediaSources == [AsFileSource(a, hash), WithSourceId(b, hash)]
      && records[0].MediaSources[1].Protocol == Http
      && GetChannelItemMediaInfo(records[0].Id, raw, hash) == Success([WithSourceId(b, hash)])
  {
    var a := SourceAt(Some("/a.mkv"));
    var b := SourceAt(Some("/b.mkv"));
    var first := Movie(1, "Dune", Some(2021), Some("/a.mkv"), [a]);
    var raw := [first, Movie(2, "Dune", Some(2021), Some("/b.mkv"), [b])];
    assert raw[..1] == [first];
    assert [first][..0] == [];
    assert DigitChar(1) == '1';
    assert DecimalText(1) == "1";
    assert RecordIdText(1) == "new_release_1";
    var second := raw[1];
    var founded := NewRecord(first, hash);
    assert Aggregated([first], hash) == [founded];
    assert FindKey([founded], ItemKey(second)) == Some(0);
    var m0 := Stamped([a], hash);
    assert m0 == [AsFileSource(a, hash)];
    assert [b][..0] == [];
    assert !HasPath(m0, b.Path) by {
      assert m0[0].Path == Some("/a.mkv") != Some("/b.mkv");
    }
    assert MergeSources(m0, [b], hash) == m0 + [WithSourceId(b, hash)];
    assert Aggregated(raw, hash) == [founded.(MediaSources := m0 + [WithSourceId(b, hash)])];
  }

  /** An item with path `""` that would be the only one with its key gives no record. */
  lemma EmptyPathGivesNoRecord(hash: string -> string)
    ensures Aggregated([Movie(1, "Dune", Some(2021), Some(""), [SourceAt(Some("/a.mkv"))])], hash) == []
  {
    var raw := [Movie(1, "Dune", Some(2021), Some(""), [SourceAt(Some("/a.mkv"))])];
    assert raw[..0] == [];
  }

  /** An item with a null path is not skipped. */
  lemma NullPathIsKept(hash: string -> string)
    ensures var item := Movie(1, "Dune", Some(2021), None, []);
      Aggregated([item], hash) == [NewRecord(item, hash)]
  {
    var item := Movie(1, "Dune", Some(2021), None, []);
    assert [item][..0] == [];
  }

  /** A null year and the year 2021 are different keys. */
  lemma NullYearIsItsOwnKey(hash: string -> string)
    ensures |Aggregated([Movie(1, "Dune", None, Some("/a.mkv"), []), Movie(2, "Dune", Some(2021), Some("/b.mkv"), [])], hash)| == 2
  {
    var first := Movie(1, "Dune", None, Some("/a.mkv"), []);
    var raw := [first, Movie(2, "Dune", Some(2021), Some("/b.mkv"), [])];
    assert raw[..1] == [first];
    assert [first][..0] == [];
  }

  /** A path repeated in the first item's own source list stays repeated in its record. */
  lemma RepeatedPathInFirstItemIsKept(hash: string -> string)
    ensures var s := SourceAt(Some("/a.mkv"));
      var records := Aggregated([Movie(1, "Dune", Some(2021), Some("/a.mkv"), [s, s])], hash);
      |records| == 1 && records[0].MediaSources == [AsFileSource(s, hash), AsFileSource(s, hash)]
  {
    var s := SourceAt(Some("/a.mkv"));
    var raw := [Movie(1, "Dune", Some(2021), Some("/a.mkv"), [s, s])];
    assert raw[..0] == [];
  }

  /** A path repeated in a later item's source list is merged once. */
  lemma RepeatedPathInLaterItemIsMergedOnce(hash: string -> string)
    ensures var a := SourceAt(Some("/a.mkv"));
      var b := SourceAt(Some("/b.mkv"));
      var raw := [Movie(1, "Dune", Some(2021), Some("/a.mkv"), [a]), Movie(2, "Dune", Some(2021), Some("/b.mkv"), [b, a, b])];
      Aggregated(raw, hash)[0].MediaSources == [AsFileSource(a, hash), WithSourceId(b, hash)]
  {
    var a := SourceAt(Some("/a.mkv"));
    var b := SourceAt(Some("/b.mkv"));
    var first := Movie(1, "Dune", Some(2021), Some("/a.mkv"), [a]);
    var raw := [first, Movie(2, "Dune", Some(2021), Some("/b.mkv"), [b, a, b])];
    assert raw[..1] == [first];
    assert [first][..0] == [];
    var m0 := Stamped([a], hash);
    assert [b, a, b][..2] == [b, a];
    assert [b, a][..1] == [b];
    assert [b][..0] == [];
    assert !HasPath(m0, b.Path) by {
      assert m0[0].Path == Some("/a.mkv");
    }
    var m1 := m0 + [WithSourceId(b, hash)];
    assert HasPath(m1, a.Path) by {
      assert m1[0].Path == a.Path;
    }
    assert HasPath(m1, b.Path) by {
      assert m1[1].Path == b.Path;
    }
    assert MergeSources(m0, [b], hash) == m1;
    assert MergeSources(m0, [b, a], hash) == m1;
    assert MergeSources(m0, [b, a, b], hash) == m1;
    var second := raw[1];
    var founded := NewRecord(first, hash);
    assert Aggregated([first], hash) == [founded];
    assert FindKey([founded], ItemKey(second)) == Some(0);
    assert Aggregated(raw, hash) == [founded.(MediaSources := m1)];
  }
}
