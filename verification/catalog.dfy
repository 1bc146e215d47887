/** The in-memory catalogue: song rows, the two recommendation strategies and the
    loader that builds the bundle from the six artifact files (app.py:12-47). */
module Catalog {

  import opened Options

  /** One row of a song table. The text table keeps its title in the `song`
      column and its artist in `artist`; the feature table uses `track_name`
      and `artist(s)_name`. Both are read into the same two fields here. */
  datatype Row = Row(title: string, artist: string)

  /** A vector representation of one song: a TF-IDF row for the text strategy,
      a scaled feature row for the feature strategy. */
  type Vector = seq<real>

  /** The fitted nearest-neighbour index, reduced to its query: the row
      positions of the closest stored vectors, nearest first. */
  type Index = Vector -> seq<nat>

  /** One strategy's three artifacts. Row i of `vectors` is the vector of row i
      of `table`, and the index was fitted on `vectors`. */
  datatype Strategy = Strategy(index: Index, vectors: seq<Vector>, table: seq<Row>)

  /** The loaded bundle: a strategy is Some exactly when its flag
      (`text_based_loaded`, `feature_based_loaded`) is true. */
  datatype Bundle = Bundle(text: Option<Strategy>, feature: Option<Strategy>)

  /** What reading one artifact file produced. */
  datatype Artifact<+T> = Missing | Present(value: T)

  /** The three files of one strategy, in the order they are opened. */
  datatype FileSet = FileSet(index: Artifact<Index>, vectors: Artifact<seq<Vector>>, table: Artifact<seq<Row>>)

  /** The loader either halts the application or hands back a bundle. */
  datatype LoadOutcome = Halted | Ready(bundle: Bundle)

  /** The title column of a table, in row order. */
  function Column(table: seq<Row>): (titles: seq<string>)
    ensures |titles| == |table|
    ensures forall j :: 0 <= j < |table| ==> titles[j] == table[j].title
  {
    seq(|table|, j requires 0 <= j < |table| => table[j].title)
  }

  predicate Complete(files: FileSet)
  {
    files.index.Present? && files.vectors.Present? && files.table.Present?
  }

  /** One `try` block of the loader: the strategy is available only when all
      three of its files were found. A partially loaded triple is discarded,
      exactly as the unset flag makes the program ignore it. */
  function LoadStrategy(files: FileSet): (s: Option<Strategy>)
    ensures s.Some? <==> files.index.Present? && files.vectors.Present? && files.table.Present?
    ensures s.Some? ==>
              && s.value.index == files.index.value
              && s.value.vectors == files.vectors.value
              && s.value.table == files.table.value
  {
    if Complete(files) then Some(Strategy(files.index.value, files.vectors.value, files.table.value))
    else None
  }

  /** The whole loader: both strategies are attempted independently, and the
      application stops only when neither could be loaded. */
  function Load(textFiles: FileSet, featureFiles: FileSet): (r: LoadOutcome)
    ensures r.Halted? <==> !Complete(textFiles) && !Complete(featureFiles)
    ensures r.Ready? ==> (r.bundle.text.Some? <==> Complete(textFiles))
    ensures r.Ready? ==> (r.bundle.feature.Some? <==> Complete(featureFiles))
    ensures r.Ready? ==> r.bundle.text.Some? || r.bundle.feature.Some?
  {
    var b := Bundle(LoadStrategy(textFiles), LoadStrategy(featureFiles));
    if b.text.None? && b.feature.None? then Halted else Ready(b)
  }

  /** The text flag does not depend on the feature files, and vice versa: any
      two loads that share one strategy's files agree on that strategy. */
  lemma LoadIndependent(textFiles: FileSet, featureA: FileSet, featureB: FileSet)
    ensures Load(textFiles, featureA).Ready? && Load(textFiles, featureB).Ready? ==>
              Load(textFiles, featureA).bundle.text == Load(textFiles, featureB).bundle.text
    ensures Complete(textFiles) ==>
              && Load(textFiles, featureA).Ready?
              && Load(textFiles, featureA).bundle.text.Some?
  {
  }

  lemma LoadIndependentFeature(textA: FileSet, textB: FileSet, featureFiles: FileSet)
    ensures Load(textA, featureFiles).Ready? && Load(textB, featureFiles).Ready? ==>
              Load(textA, featureFiles).bundle.feature == Load(textB, featureFiles).bundle.feature
    ensures Complete(featureFiles) ==>
              && Load(textA, featureFiles).Ready?
              && Load(textA, featureFiles).bundle.feature.Some?
  {
  }

}
