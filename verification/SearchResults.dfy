/** Moving the selected offers out of the supplier batches (src/search.rs). */
module SearchResults {

  datatype Batch<T> = Batch(connection: string, offers: seq<T>)

  /** The order in which selection numbered the offers. */
  function Flatten<T>(batches: seq<Batch<T>>): seq<(string, T)> {
    if batches == [] then []
    else
      var last := batches[|batches| - 1];
      Flatten(batches[..|batches| - 1]) + seq(|last.offers|, i requires 0 <= i < |last.offers| => (last.connection, last.offers[i]))
  }

  ghost predicate Ascending(s: seq<nat>) {
    forall i, j | 0 <= i < j < |s| :: s[i] < s[j]
  }

  /** One pass over the batches hands out exactly the selected offers, each with its own connection. */
  method TakeSelected<T>(batches: seq<Batch<T>>, selected: seq<nat>) returns (owned: seq<(string, T)>)
    requires Ascending(selected)
    requires forall k | 0 <= k < |selected| :: selected[k] < |Flatten(batches)|
    ensures |owned| == |selected|
    ensures forall k | 0 <= k < |owned| :: owned[k] == Flatten(batches)[selected[k]]
  {
    owned := [];
    var next, index := 0, 0;
    for b := 0 to |batches|
      invariant next == |owned| <= |selected|
      invariant index == |Flatten(batches[..b])|
      invariant forall k | 0 <= k < next :: selected[k] < index && owned[k] == Flatten(batches[..b])[selected[k]]
      invariant next < |selected| ==> index <= selected[next]
    {
      var batch := batches[b];
      ghost var before, seen := Flatten(batches[..b]), Flatten(batches[..b + 1]);
      assert batches[..b + 1][..b] == batches[..b];
      for o := 0 to |batch.offers|
        invariant next == |owned| <= |selected|
        invariant index == |before| + o
        invariant forall k | 0 <= k < next :: selected[k] < index && owned[k] == seen[selected[k]]
        invariant next < |selected| ==> index <= selected[next]
      {
        if next < |selected| && selected[next] == index {
          owned := owned + [(batch.connection, batch.offers[o])];
          next := next + 1;
        }
        index := index + 1;
      }
    }
    assert batches[..|batches|] == batches;
  }
}
