/** Types shared by the components of the networking layer. */
module Common {

  datatype Option<+T> = None | Some(value: T)

  type PeerId = nat
  type SubnetId = nat

  /** Protocol names. `LightClientUpdatesByRange` has no terminator in the source and is excluded. */
  datatype Protocol =
    | Status
    | Goodbye
    | BlocksByRange
    | BlocksByRoot
    | BlobsByRange
    | BlobsByRoot
    | DataColumnsByRoot
    | DataColumnsByRange
    | Ping
    | MetaData
    | LightClientBootstrap
    | LightClientOptimisticUpdate
    | LightClientFinalityUpdate

  function Min(a: nat, b: nat): nat {
    if a <= b then a else b
  }

  ghost predicate Distinct(l: seq<PeerId>) {
    forall i, j :: 0 <= i < j < |l| ==> l[i] != l[j]
  }

  function Elements(l: seq<PeerId>): set<PeerId> {
    set p | p in l
  }

  /** A set in some order, as iteration over a hash map gives it. */
  method ListOf(among: set<PeerId>) returns (l: seq<PeerId>)
    ensures Distinct(l) && Elements(l) == among
  {
    l := [];
    var rest := among;
    while rest != {}
      invariant Distinct(l) && Elements(l) !! rest && Elements(l) + rest == among
      decreases |rest|
    {
      var p :| p in rest;
      assert Elements(l + [p]) == Elements(l) + {p};
      l := l + [p];
      rest := rest - {p};
    }
  }
}
