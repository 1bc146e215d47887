# Song recommender: decision layer

A Dafny model of the decision logic of a Streamlit song recommender (`app.py`).
The application loads two independent recommendation strategies from pickled
artifacts. The text strategy holds a TF-IDF matrix, a nearest-neighbour model
and a table with `song`/`artist` columns. The feature strategy holds a scaled
feature matrix, a nearest-neighbour model and a table with
`track_name`/`artist(s)_name` columns. Given a title, it asks the text strategy
first and the feature strategy as fallback. It returns the neighbours' titles,
each with an album-cover URL from Spotify or a fixed placeholder. The UI shows
a sorted, de-duplicated dropdown of all loaded titles and at most five result
tiles.

Modules:

- `Options` (options.dfy): the optional value.
- `Catalog` (catalog.dfy): rows, vectors, the opaque index, strategies, the
  bundle, and the loader with its halt rule.
- `Cover` (cover.dfy): the search query and the cover-URL decision. The
  Spotify client is a connection flag plus a search function returning a
  `SearchOutcome`.
- `Recommender` (recommender.dfy): first-match lookup, self-exclusion, the
  neighbour loop, the two-strategy recommender and its priority, fallback and
  not-found properties.
- `Dropdown` (dropdown.dfy): Python's string ordering, `sorted(set(...))`, and
  the dropdown list.
- `Display` (display.dfy): the five-tile cap and tile alignment.

Modelling assumptions:

- A DataFrame's index label equals its row position. `.index[0]` yields a
  label that is then used as a matrix row and, through `iloc`, as a position.
- The nearest-neighbour index is an opaque function from a query vector to
  row positions, nearest first. The query vector of row i is row i of the
  strategy's matrix.
- A strategy is `Aligned` when it has one vector per row and its index
  reports only positions inside the table. The recommender itself does not
  assume this. An out-of-range position raises `IndexError` mid-loop, and that
  path is modelled exactly. The clean-result lemmas assume `Aligned`.
- Every failure of a Spotify search (an exception, an empty or missing
  response, missing keys) is the single `SearchOutcome.Failed` case.
- `st.write` and `st.warning` are replaced by the returned `Status`:
  `TextBased`, `FeatureBased` or `NotFound`.

A behaviour of the code as written, kept in the model:
`Recommender.LeftoverTextRows` covers an index that reports a position beyond
the text table. The text loop stops with the rows it has read so far and does
not set its found flag. The feature strategy clears the lists only after it
has its own neighbours (app.py:121-122). So when the feature strategy cannot
answer, the partial text list is returned and the not-found warning is shown
as well. `Recommender.LeftoverTextRowsExample` gives a two-row instance.
With artifacts produced together this cannot happen.

## Model

| member | source | states |
|---|---|---|
| Catalog.LoadStrategy | app.py:16-27 | a strategy is available iff all three of its files were found, and it then holds exactly those three artifacts |
| Catalog.Load | app.py:12-47 | the loader halts iff neither triple is complete; otherwise each flag is set iff its own triple is complete, and at least one is set |
| Catalog.LoadIndependent | app.py:16-41 | any two loads with the same text files that both proceed carry the same text strategy, whatever the feature files are; a complete text triple always proceeds with the text strategy loaded |
| Catalog.LoadIndependentFeature | app.py:30-45 | any two loads with the same feature files that both proceed carry the same feature strategy, whatever the text files are; a complete feature triple always proceeds with the feature strategy loaded |
| Cover.SearchQueryAmbiguous | app.py:70-71 | the query string does not determine the title and artist: ("a artist:b", "c") and ("a", "b artist:c") give the same query and so the same cover |
| Cover.CoverUrl | app.py:65-79 | the placeholder when disconnected, when the search fails, when it finds no track, or when the first track has no image; otherwise the first image of the first track |
| Cover.CoverProvenance | app.py:72-76 | any URL other than the placeholder is the first image of the first hit of a successful search for this title and artist's query string, made by a connected client |
| Cover.DisconnectedIgnoresSearch | app.py:66-67 | a client that failed to connect returns the placeholder without using its search |
| Recommender.FirstMatch | app.py:95 | None iff the title is absent from the title column; otherwise the lowest row whose title matches exactly |
| Recommender.DropFirst | app.py:99 | `[1:]`: the neighbours after the first, in order, one fewer, and empty stays empty |
| Recommender.Neighbours | app.py:96-99 | with aligned artifacts every position the loop walks over lies inside the table |
| Recommender.Emit | app.py:100-102 | names and posters have equal length; entry k is neighbour k's title and the cover of that row; the loop completes iff every position is in range, and otherwise stops at the first out-of-range one |
| Recommender.Query | app.py:89-107 | one strategy's block stops before the loop iff the title has no row or its first row has no vector; otherwise entry k is the title of the index's neighbour k + 1 with that row's cover, the loop completes iff every neighbour after the first is in range, and with aligned artifacts a title in the table always completes with one entry fewer than the index's answer |
| Recommender.Recommend | app.py:82-136 | names and posters always align, each pair from one row of one loaded table; a status of text or feature implies that strategy is loaded and has the title |
| Recommender.TextPriority | app.py:89-110 | a title in the loaded text table yields TextBased, with the neighbours after the first of the first matching row, in index order, each with its own row's cover, and the same result whatever the feature strategy is |
| Recommender.FeatureFallback | app.py:110-128 | with the text strategy unloaded or lacking the title, a title in the loaded feature table yields FeatureBased, listed the same way from the first matching feature row |
| Recommender.NotFoundWhenAbsent | app.py:133-136 | a title in neither loaded table yields two empty lists and NotFound |
| Recommender.NotFoundIffAbsent | app.py:133-136 | with aligned artifacts, NotFound is signalled iff neither loaded table has the title |
| Recommender.LeftoverTextRows | app.py:100-131 | an out-of-range text neighbour followed by a feature miss returns the partial text list together with NotFound |
| Recommender.LeftoverTextRowsExample | app.py:99-106 | the title "A" in a two-row table whose index reports row 7 gets the list ["B"] together with NotFound |
| Recommender.SelfExclusionExample | app.py:95-103 | matched row 12 with neighbours [12, 45, 7, 99, 3, 61] yields the titles of rows 45, 7, 99, 3 and 61, in that order |
| Dropdown.LessTransitive | app.py:149 | Python's string ordering is transitive |
| Dropdown.LessTotal | app.py:149 | any two distinct strings are ordered one way or the other |
| Dropdown.Insert | app.py:149 | inserting into an ascending list keeps it ascending and adds exactly the new title |
| Dropdown.SortedDistinct | app.py:149 | `sorted(set(xs))` is ascending and holds exactly the values of `xs` |
| Dropdown.AscendingUnique | app.py:149 | two ascending lists with the same elements are equal |
| Dropdown.LoadedTitles | app.py:142-146 | a title is collected iff it is in the title column of a loaded table |
| Dropdown.MusicList | app.py:142-149 | the dropdown is strictly ascending and offers a title iff a loaded table has it |
| Dropdown.MusicListDistinct | app.py:149 | no title appears twice in the dropdown |
| Dropdown.MusicListCanonical | app.py:142-149 | any ascending list of the loaded titles is the dropdown, so the order the columns are combined in does not matter |
| Display.Tiles | app.py:160-168 | min(n, 5) tiles, and tile i pairs names[i] with posters[i] |
| Display.Show | app.py:156-168 | the grid after a recommendation has min(n, 5) tiles taken in order from the aligned lists, never reading past the posters |
| Display.ShowFromText | app.py:158-168 | for a title in the text table, tile i shows neighbour i + 1 of the matched row with that row's cover |
| Display.ShowFromFeatures | app.py:158-168 | for a title only the feature strategy answers, tile i shows neighbour i + 1 of the matched feature row with that row's cover |

## Left out

- Streamlit rendering (`st.header`, `st.selectbox`, `st.button`, `st.spinner`, `st.columns`, `st.image`, `st.text`) is left out. The grid is a list of tiles.
- `st.cache_resource` memoisation is left out. Loading is a pure function of the files, so it is computed once by construction.
- Pickle deserialisation and file I/O are left out. Each file is `Missing` or `Present(value)`. Only `FileNotFoundError` is caught, and other load errors propagate, which the model does not represent.
- The partial `data` dictionary is not kept. A triple can fail after its first file, leaving keys behind with the flag false. The program never reads those keys, so a failed strategy is simply `None`.
- The nearest-neighbour search itself is left out: distances, metric and `k` live in the pickled model. The index is an opaque function from a vector to row positions.
- Spotify authentication (`init_spotify`) and network calls are left out. The client is a connection flag plus a search function. The hard-coded credentials are not modelled.
- The search is modelled as deterministic for the session: `Client.search` is a fixed function of the query string, so a repeated query gets the same answer. The real search (app.py:71) is a network call that may answer the same query differently. The poster equalities in `Recommender.Emit`, `Recommender.ListedFrom` and `Recommender.TextPriority` rest on this.
- Exceptions other than `IndexError` in the recommender are left out. Only `IndexError` is caught (app.py:106, 130). A missing `song`, `artist`, `track_name` or `artist(s)_name` column would raise `KeyError` out of the recommender, and `kneighbors` would raise `ValueError` on a vector of the wrong shape. Rows always have both fields and the index is a total function, so the model has neither path.
- `print` logging is left out. The `st.write`/`st.warning` messages are the returned `Status`.
- Non-string or missing (NaN) titles in the tables are left out. Titles are strings, so sorting them cannot fail.
