/** create_playlist_from_analysis.py.py: the playlist-creation request for a
    genre and market, and the three-column table of recommended tracks. The
    POST itself is left out; its URL is the output. */
module PlaylistCreation {
  import opened Wrappers
  import opened Text
  import opened Catalog

  /** Line 35. */
  function PlaylistName(genre: string, market: string): string
  {
    genre + "-playlist-(" + market + ")"
  }

  /** Line 36. */
  function Description(genre: string): string
  {
    "A " + genre + DescriptionTail
  }

  const DescriptionTail := " playlist tailored to your preferences."

  /** Line 37: `public = True`, formatted by an f-string. */
  const PublicText := "True"

  /** Line 32. */
  function UsersUrl(userId: string): string
  {
    "https://api.spotify.com/v1/users/" + userId + "/playlists"
  }

  /** Lines 40-42: the query string appended to the users URL. */
  function CreateUrl(userId: string, genre: string, market: string): string
  {
    UsersUrl(userId) + "?name=" + PlaylistName(genre, market)
    + "&description=" + Description(genre) + "&public=" + PublicText
  }

  /** The three columns of `data` (line 51), kept side by side. */
  datatype Columns = Columns(songName: seq<string>, artist: seq<string>, album: seq<string>)

  /** Lines 51-58: track `i` gives its name, its first artist's name and its
      album's name. A track with no artists stops the loop with IndexError on
      `["artists"][0]`. */
  method ProjectTracks(tracks: seq<Track>) returns (r: Result<Columns>)
    ensures r.Ok? <==> forall i :: 0 <= i < |tracks| ==> tracks[i].artists != []
    ensures r.Raised? ==> r.error == IndexError
    ensures r.Ok? ==> |r.value.songName| == |r.value.artist| == |r.value.album| == |tracks|
    ensures r.Ok? ==> forall i :: 0 <= i < |tracks| ==>
      r.value.songName[i] == tracks[i].name && r.value.artist[i] == tracks[i].artists[0].name
      && r.value.album[i] == tracks[i].album
  {
    var songNames, artists, albums := [], [], [];
    for i := 0 to |tracks|
      invariant |songNames| == |artists| == |albums| == i
      invariant forall j :: 0 <= j < i ==> tracks[j].artists != []
      invariant forall j :: 0 <= j < i ==>
        songNames[j] == tracks[j].name && artists[j] == tracks[j].artists[0].name
        && albums[j] == tracks[j].album
    {
      var songName := tracks[i].name;
      if tracks[i].artists == [] {
        return Raised(IndexError);
      }
      var artist := tracks[i].artists[0].name;
      var album := tracks[i].album;
      songNames := songNames + [songName];
      artists := artists + [artist];
      albums := albums + [album];
    }
    return Ok(Columns(songNames, artists, albums));
  }

  /** `create_playlist` (lines 21-61): the URL posted to and the table built. */
  method CreatePlaylist(tracks: seq<Track>, genre: string, market: string, userId: string)
    returns (url: string, table: Result<Columns>)
    ensures url == CreateUrl(userId, genre, market)
    ensures table.Ok? <==> forall i :: 0 <= i < |tracks| ==> tracks[i].artists != []
    ensures table.Raised? ==> table.error == IndexError
    ensures table.Ok? ==> |table.value.songName| == |table.value.artist| == |table.value.album| == |tracks|
    ensures table.Ok? ==> forall i :: 0 <= i < |tracks| ==>
      table.value.songName[i] == tracks[i].name && table.value.artist[i] == tracks[i].artists[0].name
      && table.value.album[i] == tracks[i].album
  {
    url := UsersUrl(userId);
    url := url + "?name=" + PlaylistName(genre, market) + "&description=" + Description(genre) + "&public=" + PublicText;
    table := ProjectTracks(tracks);
  }

  /** The description names the genre and the name then names the market: two
      requests with the same name and description were made for the same
      genre and market. */
  lemma NameAndDescriptionDetermineChoice(g1: string, m1: string, g2: string, m2: string)
    requires Description(g1) == Description(g2)
    requires PlaylistName(g1, m1) == PlaylistName(g2, m2)
    ensures g1 == g2 && m1 == m2
  {
    var d1, d2 := Description(g1), Description(g2);
    assert g1 == d1[2..|d1| - |DescriptionTail|];
    assert g2 == d2[2..|d2| - |DescriptionTail|];
    var n1, n2 := PlaylistName(g1, m1), PlaylistName(g2, m2);
    assert m1 == n1[|g1| + 11..|n1| - 1];
    assert m2 == n2[|g2| + 11..|n2| - 1];
  }

  /** When no input holds `&`, the URL splits on `&` into exactly the three
      query fields: name (behind the users URL), description and `public`. */
  lemma CreateUrlFields(userId: string, genre: string, market: string)
    requires '&' !in userId && '&' !in genre && '&' !in market
    ensures Split(CreateUrl(userId, genre, market), '&')
      == [UsersUrl(userId) + "?name=" + PlaylistName(genre, market),
          "description=" + Description(genre),
          "public=" + PublicText]
  {
    var first := UsersUrl(userId) + "?name=" + PlaylistName(genre, market);
    var second := "description=" + Description(genre);
    var third := "public=" + PublicText;
    assert CreateUrl(userId, genre, market) == first + ['&'] + (second + ['&'] + third);
    NameFieldPlain(userId, genre, market);
    DescriptionFieldPlain(genre);
    assert '&' !in third;
    SplitAtFirst(first, '&', second + ['&'] + third);
    SplitAtFirst(second, '&', third);
    SplitWithout(third, '&');
  }

  lemma NameFieldPlain(userId: string, genre: string, market: string)
    requires '&' !in userId && '&' !in genre && '&' !in market
    ensures '&' !in UsersUrl(userId) + "?name=" + PlaylistName(genre, market)
  {
    assert '&' !in "https://api.spotify.com/v1/users/";
    assert '&' !in "/playlists";
    assert '&' !in "-playlist-(";
    assert '&' !in "?name=";
  }

  lemma DescriptionFieldPlain(genre: string)
    requires '&' !in genre
    ensures '&' !in "description=" + Description(genre)
  {
    assert '&' !in DescriptionTail;
    assert '&' !in "description=";
  }
}
