/** Search results of the lyrics scripts: `get_song_list` turns each result
    block into a song record, `display_song_list` offers one option label per
    song and maps the label the user picked back to a song. */
module Songs {
  import opened Optional
  import opened Text

  datatype Link = Link(text: string, href: string)

  /** One `.bm-case` result block as the page holds it. */
  datatype ResultCase = ResultCase(
    labelLinks: seq<Link>,        // the `.bm-label a` links, in document order
    albumLinkTexts: seq<string>,  // the texts of the `.bm-label b a` links
    thumbSrc: Option<string>)     // `src` of the `.album-thumb img`; None when there is no such image

  datatype Song = Song(title: string, url: string, imageUrl: string, albumTitle: string, artistName: string)

  const NoAlbum := "No album"

  /** One pass of the loop in `get_song_list`; None when a lookup raises
      (no label link, or no thumbnail image). The title is the first label
      link, the artist the last one, the album the second album link. */
  function ScrapeSong(c: ResultCase): (r: Option<Song>)
    ensures r.Some? <==> |c.labelLinks| > 0 && c.thumbSrc.Some?
    ensures r.Some? ==>
      && r.value.title == Strip(c.labelLinks[0].text)
      && r.value.url == c.labelLinks[0].href
      && r.value.artistName == Strip(c.labelLinks[|c.labelLinks| - 1].text)
      && r.value.imageUrl == c.thumbSrc.value
    ensures r.Some? && |c.albumLinkTexts| > 1 ==> r.value.albumTitle == c.albumLinkTexts[1]
    ensures r.Some? && |c.albumLinkTexts| <= 1 ==> r.value.albumTitle == NoAlbum
  {
    if |c.labelLinks| == 0 || c.thumbSrc.None? then None
    else Some(Song(Strip(c.labelLinks[0].text), c.labelLinks[0].href, c.thumbSrc.value,
                   AlbumTitle(c.albumLinkTexts), Strip(c.labelLinks[|c.labelLinks| - 1].text)))
  }

  /** The second album link's text, or "No album" when there are fewer than two. */
  function AlbumTitle(albumLinkTexts: seq<string>): string {
    if |albumLinkTexts| > 1 then albumLinkTexts[1] else NoAlbum
  }

  /** A block with a single label link names its song after the artist, and the
      scraped names never start or end with whitespace. */
  lemma SingleLinkTitleIsArtist(c: ResultCase)
    requires |c.labelLinks| == 1 && c.thumbSrc.Some?
    ensures ScrapeSong(c).value.title == ScrapeSong(c).value.artistName
    ensures var t := ScrapeSong(c).value.title; |t| > 0 ==> !IsSpace(t[0]) && !IsSpace(t[|t| - 1])
  {
  }

  /** All the values, or None as soon as one is missing. */
  function Collect<T>(opts: seq<Option<T>>): (r: Option<seq<T>>)
    ensures r.Some? <==> forall i :: 0 <= i < |opts| ==> opts[i].Some?
    ensures r.Some? ==> |r.value| == |opts| && forall i :: 0 <= i < |opts| ==> Some(r.value[i]) == opts[i]
    decreases |opts|
  {
    if |opts| == 0 then Some([])
    else
      var rest := Collect(opts[1..]);
      assert forall i :: 1 <= i < |opts| ==> opts[i] == opts[1..][i - 1];
      if opts[0].None? || rest.None? then None
      else Some([opts[0].value] + rest.value)
  }

  /** `get_song_list` of the interactive script: every result block in order;
      a block that raises ends the call (None). */
  function GetSongList(cases: seq<ResultCase>): (r: Option<seq<Song>>)
    ensures r.Some? <==> forall i :: 0 <= i < |cases| ==> ScrapeSong(cases[i]).Some?
    ensures r.Some? ==> |r.value| == |cases|
    ensures r.Some? ==> forall i :: 0 <= i < |cases| ==> Some(r.value[i]) == ScrapeSong(cases[i])
  {
    Collect(ScrapeAll(cases))
  }

  function ScrapeAll(cases: seq<ResultCase>): (r: seq<Option<Song>>)
    ensures |r| == |cases|
    ensures forall i :: 0 <= i < |cases| ==> r[i] == ScrapeSong(cases[i])
  {
    seq(|cases|, i requires 0 <= i < |cases| => ScrapeSong(cases[i]))
  }

  /** `get_song_list` of the unattended task: the same records, but an
      exception is logged and turns into the empty list. */
  function GetSongListOrEmpty(cases: seq<ResultCase>): (songs: seq<Song>)
    ensures |songs| == 0 <==> |cases| == 0 || exists i :: 0 <= i < |cases| && ScrapeSong(cases[i]).None?
    ensures |songs| > 0 ==> |songs| == |cases| && Some(songs[0]) == ScrapeSong(cases[0])
  {
    match GetSongList(cases)
    case None => []
    case Some(songs) => songs
  }

  /** `f"{song['title']} by {song['artist_name']}"`. */
  function SongLabel(s: Song): (r: string)
    ensures |r| == |s.title| + 4 + |s.artistName|
    ensures r[..|s.title|] == s.title && r[|s.title|..|s.title| + 4] == " by " && r[|s.title| + 4..] == s.artistName
  {
    s.title + " by " + s.artistName
  }

  /** The options offered in the dialog: one label per song, in list order. */
  function OptionLabels(songs: seq<Song>): (labels: seq<string>)
    ensures |labels| == |songs|
    ensures forall i :: 0 <= i < |songs| ==> labels[i] == SongLabel(songs[i])
  {
    seq(|songs|, i requires 0 <= i < |songs| => SongLabel(songs[i]))
  }

  /** The loop at the end of `display_song_list`: the first song whose label is
      the picked one. */
  function FirstWithLabel(songs: seq<Song>, picked: Option<string>): (r: Option<Song>)
    ensures r.None? <==> forall i :: 0 <= i < |songs| ==> picked != Some(SongLabel(songs[i]))
    ensures r.Some? ==> exists i :: (0 <= i < |songs| && songs[i] == r.value && picked == Some(SongLabel(songs[i]))
      && forall j :: 0 <= j < i ==> picked != Some(SongLabel(songs[j])))
    decreases |songs|
  {
    if |songs| == 0 then None
    else if picked == Some(SongLabel(songs[0])) then Some(songs[0])
    else
      var r := FirstWithLabel(songs[1..], picked);
      assert forall i :: 1 <= i < |songs| ==> songs[i] == songs[1..][i - 1];
      r
  }

  datatype Selection = Selection(options: seq<string>, chosen: Option<Song>)

  /** `display_song_list(song_list)`, with the dialog's answer given as `picked`
      (None when the dialog returns no choice). */
  function DisplaySongList(songs: seq<Song>, picked: Option<string>): (r: Selection)
    ensures r.options == OptionLabels(songs)
    ensures r.chosen.Some? ==> r.chosen.value in songs && Some(SongLabel(r.chosen.value)) == picked
    ensures r.chosen.None? <==> forall i :: 0 <= i < |songs| ==> picked != Some(r.options[i])
    ensures r.chosen == FirstWithLabel(songs, picked)
  {
    var options := OptionLabels(songs);
    var chosen := FirstWithLabel(songs, picked);
    assert chosen.None? <==> forall i :: 0 <= i < |songs| ==> picked != Some(options[i]);
    Selection(options, chosen)
  }

  /** Picking the k-th option yields a song with that label no later than the
      k-th; when the labels are pairwise distinct it is the k-th song itself. */
  lemma PickedOptionYieldsSong(songs: seq<Song>, k: nat)
    requires k < |songs|
    ensures var r := DisplaySongList(songs, Some(SongLabel(songs[k])));
      exists j :: 0 <= j <= k && r.chosen == Some(songs[j]) && SongLabel(songs[j]) == SongLabel(songs[k])
    ensures (forall i, j :: 0 <= i < j < |songs| ==> SongLabel(songs[i]) != SongLabel(songs[j])) ==>
      DisplaySongList(songs, Some(SongLabel(songs[k]))).chosen == Some(songs[k])
  {
    var picked := Some(SongLabel(songs[k]));
    assert DisplaySongList(songs, picked).chosen == FirstWithLabel(songs, picked);
    var r := FirstWithLabel(songs, picked);
    var i :| 0 <= i < |songs| && songs[i] == r.value && picked == Some(SongLabel(songs[i]))
      && forall j :: 0 <= j < i ==> picked != Some(SongLabel(songs[j]));
    assert i <= k;
  }

  /** Labels are not unique: "A by B" by "C" and "A" by "B by C" share a label,
      and picking it always yields the first of the two. */
  lemma LabelsCanCollide()
    ensures var s1 := Song("A by B", "u1", "", NoAlbum, "C");
      var s2 := Song("A", "u2", "", NoAlbum, "B by C");
      && SongLabel(s1) == SongLabel(s2)
      && DisplaySongList([s1, s2], Some(SongLabel(s2))).chosen == Some(s1)
  {
    var s1 := Song("A by B", "u1", "", NoAlbum, "C");
    var s2 := Song("A", "u2", "", NoAlbum, "B by C");
    assert SongLabel(s1) == SongLabel(s2);
  }
}
