/** What the two loaders share: a CSV file is a header row followed by body rows,
    each body row gets a verdict (the cleaned record, or the reason it is
    skipped), and the table receives the accepted records in input order. */
module Rows {
  import opened Wrappers

  /** Why a loader skips a row. A skip never aborts the load. */
  datatype Skip =
    | WrongFieldCount  // the row does not have the expected number of fields
    | BlankField       // some field is empty once stripped
    | NotAnInteger     // a numeric field does not parse as an integer

  predicate StrictlyIncreasing(xs: seq<int>) {
    forall k, l :: 0 <= k < l < |xs| ==> xs[k] < xs[l]
  }

  /** The positions of the accepting verdicts, in increasing order: exactly those
      positions, each once. */
  function OkPositions<T, E>(vs: seq<Result<T, E>>): (ps: seq<nat>)
    ensures |ps| <= |vs|
    ensures StrictlyIncreasing(ps)
    ensures forall k :: 0 <= k < |ps| ==> ps[k] < |vs| && vs[ps[k]].Ok?
    ensures forall i :: 0 <= i < |vs| && vs[i].Ok? ==> i in ps
  {
    if |vs| == 0 then []
    else
      var init := vs[..|vs| - 1];
      var prev := OkPositions(init);
      assert forall k :: 0 <= k < |prev| ==> vs[prev[k]] == init[prev[k]];
      if vs[|vs| - 1].Ok? then prev + [|vs| - 1] else prev
  }

  /** One iteration of a loader's loop: an accepted row is inserted under the next
      id (the table's INTEGER PRIMARY KEY, one more than the rows already there),
      a skipped row leaves the table as it was. `stamp` builds the stored record
      from that id and the cleaned fields. */
  function Offer<T, R>(table: seq<R>, verdict: Result<T, Skip>, stamp: (int, T) -> R): seq<R> {
    match verdict
    case Ok(fields) => table + [stamp(|table| + 1, fields)]
    case Err(_) => table
  }

  /** The table after the verdicts `vs` have been offered to an empty table one
      after another. */
  function Insert<T, R>(vs: seq<Result<T, Skip>>, stamp: (int, T) -> R): seq<R> {
    if |vs| == 0 then [] else Offer(Insert(vs[..|vs| - 1], stamp), vs[|vs| - 1], stamp)
  }

  /** The k-th stored record carries id k + 1 and the fields of the k-th accepting
      verdict; there are as many records as accepting verdicts. */
  lemma {:induction false} InsertKeepsAccepted<T, R>(vs: seq<Result<T, Skip>>, stamp: (int, T) -> R)
    ensures var table := Insert(vs, stamp);
      var ps := OkPositions(vs);
      && |table| == |ps|
      && forall k :: 0 <= k < |table| ==> table[k] == stamp(k + 1, vs[ps[k]].value)
  {
    if |vs| > 0 {
      var init := vs[..|vs| - 1];
      var last := vs[|vs| - 1];
      InsertKeepsAccepted(init, stamp);
      var prev := Insert(init, stamp);
      var ps := OkPositions(init);
      var table := Insert(vs, stamp);
      var ps' := OkPositions(vs);
      assert table == Offer(prev, last, stamp);
      if last.Ok? {
        assert ps' == ps + [|vs| - 1];
        assert table == prev + [stamp(|prev| + 1, last.value)];
        forall k | 0 <= k < |table|
          ensures table[k] == stamp(k + 1, vs[ps'[k]].value)
        {
          if k < |prev| {
            assert table[k] == prev[k] && ps'[k] == ps[k];
            assert vs[ps[k]] == init[ps[k]];
          }
        }
      } else {
        assert ps' == ps && table == prev;
        forall k | 0 <= k < |table|
          ensures table[k] == stamp(k + 1, vs[ps'[k]].value)
        {
          assert vs[ps[k]] == init[ps[k]];
        }
      }
    }
  }
}
