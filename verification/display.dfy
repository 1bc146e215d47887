/** The result grid (app.py:156-168): at most five tiles, tile i showing the
    i-th recommended title above the i-th poster. */
module Display {

  import opened Catalog
  import opened Cover
  import opened Recommender

  /** The most tiles the grid shows, however many recommendations there are. */
  const MaxTiles: nat := 5

  datatype Tile = Tile(name: string, poster: string)

  function Min(a: nat, b: nat): nat
  {
    if a <= b then a else b
  }

  /** The grid: the first `min(n, 5)` names, each with the poster at the same
      position. An empty list shows nothing. Reading `posters[i]` needs the
      poster list to reach that far. */
  function Tiles(names: seq<string>, posters: seq<string>): (tiles: seq<Tile>)
    requires Min(|names|, MaxTiles) <= |posters|
    ensures |tiles| <= MaxTiles && |tiles| <= |names|
    ensures |names| >= MaxTiles ==> |tiles| == MaxTiles
    ensures |names| < MaxTiles ==> |tiles| == |names|
    ensures forall i :: 0 <= i < |tiles| ==> tiles[i].name == names[i] && tiles[i].poster == posters[i]
  {
    seq(Min(|names|, MaxTiles), i requires 0 <= i < Min(|names|, MaxTiles) => Tile(names[i], posters[i]))
  }

  /** Pressing the button: recommend, then lay out the grid. The recommender's
      two lists always have equal length, so the grid never reads past the
      poster list. */
  function Show(b: Bundle, client: Client, title: string): (tiles: seq<Tile>)
    ensures |tiles| <= MaxTiles
    ensures var r := Recommend(b, client, title);
            && |tiles| == Min(|r.names|, MaxTiles)
            && forall i :: 0 <= i < |tiles| ==> tiles[i] == Tile(r.names[i], r.posters[i])
  {
    var r := Recommend(b, client, title);
    Tiles(r.names, r.posters)
  }

  /** For a title the text strategy knows, tile i shows neighbour i + 1 of the
      matched row together with that same row's cover. */
  lemma ShowFromText(b: Bundle, client: Client, title: string)
    requires b.text.Some? && Aligned(b.text.value) && title in Column(b.text.value.table)
    ensures Queryable(b.text.value, title)
    ensures var s := b.text.value;
            var raw := RawNeighbours(s, title);
            var tiles := Show(b, client, title);
            && |tiles| == Min(if |raw| == 0 then 0 else |raw| - 1, MaxTiles)
            && forall i :: 0 <= i < |tiles| ==>
                 && raw[i + 1] < |s.table|
                 && tiles[i] == Tile(s.table[raw[i + 1]].title,
                                     CoverUrl(client, s.table[raw[i + 1]].title, s.table[raw[i + 1]].artist))
  {
    TextPriority(b, client, title, b.feature);
  }

  /** For a title that only the feature strategy can answer, tile i shows
      neighbour i + 1 of the matched feature row with that row's cover. */
  lemma ShowFromFeatures(b: Bundle, client: Client, title: string)
    requires b.text.None? || title !in Column(b.text.value.table)
    requires b.feature.Some? && Aligned(b.feature.value) && title in Column(b.feature.value.table)
    ensures Queryable(b.feature.value, title)
    ensures var s := b.feature.value;
            var raw := RawNeighbours(s, title);
            var tiles := Show(b, client, title);
            && |tiles| == Min(if |raw| == 0 then 0 else |raw| - 1, MaxTiles)
            && forall i :: 0 <= i < |tiles| ==>
                 && raw[i + 1] < |s.table|
                 && tiles[i] == Tile(s.table[raw[i + 1]].title,
                                     CoverUrl(client, s.table[raw[i + 1]].title, s.table[raw[i + 1]].artist))
  {
    FeatureFallback(b, client, title);
  }

}
