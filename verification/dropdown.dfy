/** The dropdown of known titles (app.py:142-149): the titles of every loaded
    table, de-duplicated and sorted. */
module Dropdown {

  import opened Options
  import opened Catalog

  /** Python's ordering of strings: code point by code point, a proper prefix
      coming first. */
  predicate Less(a: string, b: string)
  {
    if |a| == 0 then |b| > 0
    else if |b| == 0 then false
    else if a[0] != b[0] then a[0] < b[0]
    else Less(a[1..], b[1..])
  }

  lemma {:induction false} LessIrreflexive(a: string)
    ensures !Less(a, a)
    decreases |a|
  {
    if |a| > 0 {
      LessIrreflexive(a[1..]);
    }
  }

  lemma {:induction false} LessTransitive(a: string, b: string, c: string)
    requires Less(a, b) && Less(b, c)
    ensures Less(a, c)
    decreases |a|
  {
    if |a| > 0 && a[0] == b[0] && b[0] == c[0] {
      LessTransitive(a[1..], b[1..], c[1..]);
    }
  }

  lemma {:induction false} LessTotal(a: string, b: string)
    requires a != b
    ensures Less(a, b) || Less(b, a)
    decreases |a|
  {
    if |a| > 0 && |b| > 0 && a[0] == b[0] {
      assert a == [a[0]] + a[1..] && b == [b[0]] + b[1..];
      LessTotal(a[1..], b[1..]);
    }
  }

  lemma LessAsymmetric(a: string, b: string)
    ensures !(Less(a, b) && Less(b, a))
  {
    if Less(a, b) && Less(b, a) {
      LessTransitive(a, b, a);
      LessIrreflexive(a);
    }
  }

  /** Every earlier element is smaller than every later one; in particular no
      title occurs twice. */
  predicate Ascending(xs: seq<string>)
  {
    forall i, j :: 0 <= i < j < |xs| ==> Less(xs[i], xs[j])
  }

  /** Insert one title into an ascending list, dropping it if already there. */
  function Insert(xs: seq<string>, t: string): (r: seq<string>)
    requires Ascending(xs)
    ensures Ascending(r)
    ensures forall u :: u in r <==> u in xs || u == t
    decreases |xs|
  {
    if |xs| == 0 then [t]
    else if t == xs[0] then xs
    else if Less(t, xs[0]) then
      (forall j | 0 <= j < |xs| ensures Less(t, xs[j]) {
         if j > 0 { LessTransitive(t, xs[0], xs[j]); }
       }
       [t] + xs)
    else
      var rest := Insert(xs[1..], t);
      LessTotal(t, xs[0]);
      assert forall u :: u in rest ==> Less(xs[0], u);
      [xs[0]] + rest
  }

  /** `sorted(set(xs))`: the distinct values of `xs`, ascending. */
  function SortedDistinct(xs: seq<string>): (r: seq<string>)
    ensures Ascending(r)
    ensures forall u :: u in r <==> u in xs
    decreases |xs|
  {
    if |xs| == 0 then []
    else Insert(SortedDistinct(xs[..|xs| - 1]), xs[|xs| - 1])
  }

  /** The head of an ascending list is its least element. */
  lemma HeadLeast(xs: seq<string>, u: string)
    requires Ascending(xs) && u in xs
    ensures u == xs[0] || Less(xs[0], u)
  {
  }

  /** An ascending list is fixed by its elements: two ascending lists holding
      the same titles are the same list. So the dropdown does not depend on the
      order in which the tables contributed their titles. */
  lemma {:induction false} AscendingUnique(xs: seq<string>, ys: seq<string>)
    requires Ascending(xs) && Ascending(ys)
    requires forall u :: u in xs <==> u in ys
    ensures xs == ys
    decreases |xs|
  {
    if |xs| > 0 { assert xs[0] in xs; }
    if |ys| > 0 { assert ys[0] in ys; }
    if |xs| > 0 && |ys| > 0 {
      HeadLeast(xs, ys[0]);
      HeadLeast(ys, xs[0]);
      LessAsymmetric(xs[0], ys[0]);
      assert xs[0] == ys[0];
      forall u
        ensures u in xs[1..] <==> u in ys[1..]
      {
        if u in xs[1..] {
          var i :| 1 <= i < |xs| && xs[i] == u;
          LessIrreflexive(xs[0]);
          assert u in ys && u != ys[0];
          assert ys == [ys[0]] + ys[1..];
        }
        if u in ys[1..] {
          var j :| 1 <= j < |ys| && ys[j] == u;
          LessIrreflexive(ys[0]);
          assert u in xs && u != xs[0];
          assert xs == [xs[0]] + xs[1..];
        }
      }
      AscendingUnique(xs[1..], ys[1..]);
      assert xs == [xs[0]] + xs[1..] && ys == [ys[0]] + ys[1..];
    }
  }

  /** The titles the dropdown is built from: the text table's `song` column,
      then the feature table's `track_name` column, each only when loaded. */
  function LoadedTitles(b: Bundle): (titles: seq<string>)
    ensures forall u :: u in titles <==>
              (b.text.Some? && u in Column(b.text.value.table))
              || (b.feature.Some? && u in Column(b.feature.value.table))
  {
    (if b.text.Some? then Column(b.text.value.table) else [])
    + (if b.feature.Some? then Column(b.feature.value.table) else [])
  }

  /** The dropdown: strictly ascending, and a title is offered exactly when a
      loaded table has it. */
  function MusicList(b: Bundle): (r: seq<string>)
    ensures Ascending(r)
    ensures forall u :: u in r <==>
              (b.text.Some? && u in Column(b.text.value.table))
              || (b.feature.Some? && u in Column(b.feature.value.table))
  {
    SortedDistinct(LoadedTitles(b))
  }

  /** No title is offered twice. */
  lemma MusicListDistinct(b: Bundle)
    ensures forall i, j :: 0 <= i < j < |MusicList(b)| ==> MusicList(b)[i] != MusicList(b)[j]
  {
    var r := MusicList(b);
    forall i, j | 0 <= i < j < |r|
      ensures r[i] != r[j]
    {
      LessIrreflexive(r[i]);
    }
  }

  /** The dropdown is the same whichever order the two columns are combined
      in: it is the one ascending list of the loaded titles. */
  lemma MusicListCanonical(b: Bundle, candidate: seq<string>)
    requires Ascending(candidate)
    requires forall u :: u in candidate <==> u in LoadedTitles(b)
    ensures candidate == MusicList(b)
  {
    AscendingUnique(candidate, MusicList(b));
  }

}
