/** The album-cover lookup (app.py:51-79). The Spotify client is reduced to a
    connection flag, fixed once at start-up, and a search function from a query
    string to what the search produced. */
module Cover {

  /** The fixed image shown whenever no real cover can be resolved. */
  const Placeholder: string := "https://i.postimg.cc/0QNxYz4V/social.png"

  datatype Image = Image(url: string)
  datatype Album = Album(images: seq<Image>)
  datatype Track = Track(album: Album)

  /** What one track search produced. `Failed` stands for every way the call
      can go wrong: a raised exception, an empty or missing response, a
      response without the expected keys. */
  datatype SearchOutcome = Failed | Results(items: seq<Track>)

  /** The session's client: `connected` is false when authentication failed at
      start-up, and then `search` is never consulted. */
  datatype Client = Client(connected: bool, search: string -> SearchOutcome)

  /** The search query for a title and an artist (app.py:70). */
  function SearchQuery(song: string, artist: string): string
  {
    "track:" + song + " artist:" + artist
  }

  /** The query does not determine the pair it was built from: a title that
      itself contains " artist:" gives the same query as a different split.
      The search, and so the cover, sees only the query string. */
  lemma SearchQueryAmbiguous()
    ensures ("a artist:b", "c") != ("a", "b artist:c")
    ensures SearchQuery("a artist:b", "c") == SearchQuery("a", "b artist:c")
    ensures forall client: Client ::
              CoverUrl(client, "a artist:b", "c") == CoverUrl(client, "a", "b artist:c")
  {
  }

  /** The cover URL of a song: the first image of the first search hit, and the
      placeholder on every other path. It never fails. */
  function CoverUrl(client: Client, song: string, artist: string): (url: string)
    ensures !client.connected ==> url == Placeholder
    ensures client.connected && client.search(SearchQuery(song, artist)).Failed? ==> url == Placeholder
    ensures client.connected && client.search(SearchQuery(song, artist)) == Results([]) ==> url == Placeholder
    ensures client.connected && client.search(SearchQuery(song, artist)).Results?
            && |client.search(SearchQuery(song, artist)).items| > 0
            ==> (var images := client.search(SearchQuery(song, artist)).items[0].album.images;
                 url == if |images| == 0 then Placeholder else images[0].url)
  {
    if !client.connected then Placeholder
    else
      match client.search(SearchQuery(song, artist))
      case Failed => Placeholder
      case Results(items) =>
        if |items| > 0 && |items[0].album.images| > 0 then items[0].album.images[0].url
        else Placeholder
  }

  /** Where a cover can come from: a URL other than the placeholder is always
      the first image of the first hit of a successful search by a connected
      client, made with this title and artist's query string. */
  lemma CoverProvenance(client: Client, song: string, artist: string)
    ensures var url := CoverUrl(client, song, artist);
            url != Placeholder ==>
              && client.connected
              && var outcome := client.search(SearchQuery(song, artist));
              && outcome.Results?
              && |outcome.items| > 0
              && |outcome.items[0].album.images| > 0
              && url == outcome.items[0].album.images[0].url
  {
  }

  /** A client that failed to connect never looks at its search function. */
  lemma DisconnectedIgnoresSearch(a: string -> SearchOutcome, b: string -> SearchOutcome, song: string, artist: string)
    ensures CoverUrl(Client(false, a), song, artist) == CoverUrl(Client(false, b), song, artist) == Placeholder
  {
  }

}
