/** The two-strategy recommender (app.py:82-136): text strategy first, feature
    strategy as fallback, "not found" when neither table has the title. */
module Recommender {

  import opened Options
  import opened Catalog
  import opened Cover

  /** Which strategy produced the list; `NotFound` is the case in which the
      program shows its "not found in either dataset" warning. */
  datatype Status = TextBased | FeatureBased | NotFound

  datatype Recommendation = Recommendation(names: seq<string>, posters: seq<string>, status: Status)

  /** The lists built by one strategy's loop, and whether the loop ran to the
      end (false when a neighbour position fell outside the table). */
  datatype Emitted = Emitted(names: seq<string>, posters: seq<string>, complete: bool)

  /** What one strategy's `try` block did: stopped before clearing or filling
      the lists (no row with that title, or no vector for that row), or ran
      the neighbour loop. */
  datatype Lookup = NoRow | Listed(emitted: Emitted)

  /** Exact-match lookup of a title in a table's title column; the first
      matching row wins (`.index[0]`, with index labels equal to positions). */
  function FirstMatch(table: seq<Row>, title: string): (r: Option<nat>)
    ensures r.None? <==> title !in Column(table)
    ensures r.Some? ==> r.value < |table| && table[r.value].title == title
    ensures r.Some? ==> forall j :: 0 <= j < r.value ==> table[j].title != title
  {
    if |table| == 0 then None
    else if table[0].title == title then Some(0)
    else
      match FirstMatch(table[1..], title)
      case None => None
      case Some(i) => Some(i + 1)
  }

  /** Python's `[1:]` on the neighbour array: the first neighbour (the query
      row itself) is dropped unchecked; an empty array stays empty. */
  function DropFirst(neighbours: seq<nat>): (rest: seq<nat>)
    ensures |neighbours| == 0 ==> rest == []
    ensures |neighbours| > 0 ==> |rest| == |neighbours| - 1
    ensures forall k :: 0 <= k < |rest| ==> rest[k] == neighbours[k + 1]
  {
    if |neighbours| == 0 then [] else neighbours[1..]
  }

  predicate InRange(ids: seq<nat>, size: nat)
  {
    forall k :: 0 <= k < |ids| ==> ids[k] < size
  }

  /** The neighbour loop: for each position, in the index's order, append the
      row's title and the cover of that row's title and artist. A position
      outside the table raises, which ends the loop with the lists built so
      far and without setting the found flag. */
  function Emit(table: seq<Row>, ids: seq<nat>, client: Client): (e: Emitted)
    ensures |e.names| == |e.posters| <= |ids|
    ensures forall k :: 0 <= k < |e.names| ==>
              && ids[k] < |table|
              && e.names[k] == table[ids[k]].title
              && e.posters[k] == CoverUrl(client, table[ids[k]].title, table[ids[k]].artist)
    ensures e.complete <==> InRange(ids, |table|)
    ensures e.complete ==> |e.names| == |ids|
    ensures !e.complete ==> |e.names| < |ids| && ids[|e.names|] >= |table|
    ensures PairsFrom(e.names, e.posters, table, client)
    decreases |ids|
  {
    if |ids| == 0 then Emitted([], [], true)
    else if ids[0] >= |table| then Emitted([], [], false)
    else
      var row := table[ids[0]];
      var rest := Emit(table, ids[1..], client);
      Emitted([row.title] + rest.names, [CoverUrl(client, row.title, row.artist)] + rest.posters, rest.complete)
  }

  /** The title has a row, and that first row has a vector to query with. */
  predicate Queryable(s: Strategy, title: string)
  {
    title in Column(s.table) && FirstMatch(s.table, title).value < |s.vectors|
  }

  /** What the index returns for the vector of the title's first row; its
      first entry is expected to be that row itself. */
  function RawNeighbours(s: Strategy, title: string): seq<nat>
    requires Queryable(s, title)
  {
    s.index(s.vectors[FirstMatch(s.table, title).value])
  }

  /** The neighbour positions the loop walks over: the raw answer without its
      first entry. */
  function Neighbours(s: Strategy, title: string): (ids: seq<nat>)
    requires Queryable(s, title)
    ensures Aligned(s) ==> InRange(ids, |s.table|)
  {
    DropFirst(RawNeighbours(s, title))
  }

  /** The artifacts of one strategy agree: one vector per row, and the index
      only reports positions of rows of the table. */
  predicate Aligned(s: Strategy)
  {
    && |s.vectors| == |s.table|
    && forall i :: 0 <= i < |s.vectors| ==> InRange(s.index(s.vectors[i]), |s.table|)
  }

  /** One strategy's `try` block: find the first row with the title, fetch its
      vector, ask the index for neighbours and run the loop on all but the
      first. A missing row or a missing vector raises before any list is
      touched. */
  function Query(s: Strategy, title: string, client: Client): (r: Lookup)
    ensures r.NoRow? <==> title !in Column(s.table) || FirstMatch(s.table, title).value >= |s.vectors|
    ensures r.Listed? ==>
              var raw := RawNeighbours(s, title);
              var e := r.emitted;
              && |e.names| == |e.posters|
              && |e.names| <= (if |raw| == 0 then 0 else |raw| - 1)
              && (e.complete <==> forall k :: 1 <= k < |raw| ==> raw[k] < |s.table|)
              && forall k :: 0 <= k < |e.names| ==>
                   && raw[k + 1] < |s.table|
                   && e.names[k] == s.table[raw[k + 1]].title
                   && e.posters[k] == CoverUrl(client, s.table[raw[k + 1]].title, s.table[raw[k + 1]].artist)
    ensures Aligned(s) && title in Column(s.table) ==>
              && r.Listed?
              && r.emitted.complete
              && |r.emitted.names| == (var raw := RawNeighbours(s, title); if |raw| == 0 then 0 else |raw| - 1)
  {
    if Queryable(s, title) then Listed(Emit(s.table, Neighbours(s, title), client)) else NoRow
  }

  /** Every name comes with the cover of the very row it was read from, and
      every row is one of `table`'s. */
  ghost predicate PairsFrom(names: seq<string>, posters: seq<string>, table: seq<Row>, client: Client)
  {
    && |names| == |posters|
    && forall k :: 0 <= k < |names| ==>
         exists j :: 0 <= j < |table| && names[k] == table[j].title
                     && posters[k] == CoverUrl(client, table[j].title, table[j].artist)
  }

  /** The recommender. The text strategy runs first when it is loaded; the
      feature strategy runs only when the text strategy did not set its found
      flag, and clears the lists once it has its neighbours. */
  function Recommend(b: Bundle, client: Client, title: string): (r: Recommendation)
    ensures |r.names| == |r.posters|
    ensures r.status == TextBased ==> b.text.Some? && title in Column(b.text.value.table)
    ensures r.status == FeatureBased ==> b.feature.Some? && title in Column(b.feature.value.table)
    ensures r.status == TextBased ==> PairsFrom(r.names, r.posters, b.text.value.table, client)
    ensures r.status == FeatureBased ==> PairsFrom(r.names, r.posters, b.feature.value.table, client)
    ensures r.names == []
            || (b.text.Some? && PairsFrom(r.names, r.posters, b.text.value.table, client))
            || (b.feature.Some? && PairsFrom(r.names, r.posters, b.feature.value.table, client))
  {
    var textStep := if b.text.Some? then Query(b.text.value, title, client) else NoRow;
    var afterText := if textStep.Listed? then textStep.emitted else Emitted([], [], false);
    var foundText := afterText.complete;
    var featureStep := if !foundText && b.feature.Some? then Query(b.feature.value, title, client) else NoRow;
    var afterFeature := if featureStep.Listed? then featureStep.emitted else Emitted(afterText.names, afterText.posters, false);
    var foundFeature := afterFeature.complete;
    Recommendation(afterFeature.names, afterFeature.posters,
                   if foundText then TextBased else if foundFeature then FeatureBased else NotFound)
  }

  /** The list a strategy produces for a title when its artifacts agree: the
      titles of the reported neighbours after the first, in the index's order,
      each with the cover of its own row. Its length is one less than the
      index's answer even when that leaves nothing. */
  ghost predicate ListedFrom(r: Recommendation, s: Strategy, title: string, client: Client)
    requires Queryable(s, title) && Aligned(s)
  {
    var raw := RawNeighbours(s, title);
    && |r.names| == (if |raw| == 0 then 0 else |raw| - 1)
    && |r.posters| == |r.names|
    && forall k :: 0 <= k < |r.names| ==>
         && raw[k + 1] < |s.table|
         && r.names[k] == s.table[raw[k + 1]].title
         && r.posters[k] == CoverUrl(client, s.table[raw[k + 1]].title, s.table[raw[k + 1]].artist)
  }

  /** Text priority: a title in the loaded text table is answered from the
      first matching text row, and the feature strategy plays no part, even if
      it also knows the title. */
  lemma TextPriority(b: Bundle, client: Client, title: string, other: Option<Strategy>)
    requires b.text.Some? && Aligned(b.text.value) && title in Column(b.text.value.table)
    ensures Queryable(b.text.value, title)
    ensures Recommend(b, client, title).status == TextBased
    ensures ListedFrom(Recommend(b, client, title), b.text.value, title, client)
    ensures Recommend(Bundle(b.text, other), client, title) == Recommend(b, client, title)
  {
  }

  /** Fallback: when the text strategy is not loaded or lacks the title, a
      title in the loaded feature table is answered from the first matching
      feature row. */
  lemma FeatureFallback(b: Bundle, client: Client, title: string)
    requires b.text.None? || title !in Column(b.text.value.table)
    requires b.feature.Some? && Aligned(b.feature.value) && title in Column(b.feature.value.table)
    ensures Queryable(b.feature.value, title)
    ensures Recommend(b, client, title).status == FeatureBased
    ensures ListedFrom(Recommend(b, client, title), b.feature.value, title, client)
  {
  }

  /** Not found: a title in neither loaded table yields two empty lists and
      the not-found status. */
  lemma NotFoundWhenAbsent(b: Bundle, client: Client, title: string)
    requires b.text.None? || title !in Column(b.text.value.table)
    requires b.feature.None? || title !in Column(b.feature.value.table)
    ensures Recommend(b, client, title) == Recommendation([], [], NotFound)
  {
  }

  /** With agreeing artifacts, the not-found status is shown exactly when
      neither loaded table has the title. */
  lemma NotFoundIffAbsent(b: Bundle, client: Client, title: string)
    requires b.text.Some? ==> Aligned(b.text.value)
    requires b.feature.Some? ==> Aligned(b.feature.value)
    ensures Recommend(b, client, title).status == NotFound
            <==> (b.text.None? || title !in Column(b.text.value.table))
                 && (b.feature.None? || title !in Column(b.feature.value.table))
  {
    if b.text.Some? && title in Column(b.text.value.table) {
      TextPriority(b, client, title, b.feature);
    } else if b.feature.Some? && title in Column(b.feature.value.table) {
      FeatureFallback(b, client, title);
    } else {
      NotFoundWhenAbsent(b, client, title);
    }
  }

  /** When the text index reports a position beyond the text table, the loop
      stops with the rows read so far and the found flag unset. If the feature
      strategy then cannot query the title either, those leftover text rows
      are returned together with the not-found status. */
  lemma LeftoverTextRows(b: Bundle, client: Client, title: string)
    requires b.text.Some? && Queryable(b.text.value, title)
    requires !InRange(Neighbours(b.text.value, title), |b.text.value.table|)
    requires b.feature.None? || !Queryable(b.feature.value, title)
    ensures var r := Recommend(b, client, title);
            && r.status == NotFound
            && r.names == Emit(b.text.value.table, Neighbours(b.text.value, title), client).names
            && |r.names| < |Neighbours(b.text.value, title)|
  {
  }

  /** A concrete instance: the index reports row 7 of a two-row table, so the
      title "A" gets the list ["B"] and the not-found status at once. */
  lemma LeftoverTextRowsExample(client: Client)
    ensures var s := Strategy(v => [0, 1, 7], [[0.0], [1.0]], [Row("A", "x"), Row("B", "y")]);
            var r := Recommend(Bundle(Some(s), None), client, "A");
            r.status == NotFound && r.names == ["B"]
  {
    var s := Strategy(v => [0, 1, 7], [[0.0], [1.0]], [Row("A", "x"), Row("B", "y")]);
    assert Column(s.table) == ["A", "B"];
    assert FirstMatch(s.table, "A") == Some(0);
    assert Neighbours(s, "A") == [1, 7];
  }

  /** A worked example: the title's first text row is row 12
      and the index answers [12, 45, 7, 99, 3, 61]; the recommendation lists
      rows 45, 7, 99, 3 and 61, in that order. */
  lemma SelfExclusionExample(b: Bundle, client: Client, title: string)
    requires b.text.Some? && Aligned(b.text.value) && title in Column(b.text.value.table)
    requires FirstMatch(b.text.value.table, title) == Some(12)
    requires b.text.value.index(b.text.value.vectors[12]) == [12, 45, 7, 99, 3, 61]
    ensures |b.text.value.table| > 99
    ensures var t := b.text.value.table;
            Recommend(b, client, title).names == [t[45].title, t[7].title, t[99].title, t[3].title, t[61].title]
  {
    var s := b.text.value;
    TextPriority(b, client, title, b.feature);
    SpellOut(Recommend(b, client, title), s.table, RawNeighbours(s, title));
  }

  /** The five names read off rows 45, 7, 99, 3 and 61. */
  lemma SpellOut(r: Recommendation, t: seq<Row>, raw: seq<nat>)
    requires raw == [12, 45, 7, 99, 3, 61] && InRange(raw, |t|)
    requires |r.names| == 5
    requires forall k :: 0 <= k < |r.names| ==> raw[k + 1] < |t| && r.names[k] == t[raw[k + 1]].title
    ensures |t| > 99
    ensures r.names == [t[45].title, t[7].title, t[99].title, t[3].title, t[61].title]
  {
    assert raw[3] == 99;
    assert r.names[0] == t[45].title && r.names[1] == t[7].title && r.names[2] == t[99].title;
    assert r.names[3] == t[3].title && r.names[4] == t[61].title;
  }

}
