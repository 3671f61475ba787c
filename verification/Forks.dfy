/** The forks of the chain and their digests. Phases are numbered in activation order. */
module Forks {
  import opened Common
  import opened Varint

  type Epoch = nat
  type Phase = nat
  type Digest = s: seq<Byte> | |s| == 4 witness [0, 0, 0, 0]

  const FAR_FUTURE_EPOCH: Epoch := 0xFFFF_FFFF_FFFF_FFFF

  /** `forkEpochs[p]` is the epoch of phase p; genesis is phase 0. `blobEpochs` change blob parameters only. */
  datatype Config = Config(forkEpochs: seq<Epoch>, blobEpochs: seq<Epoch>, digestAt: Epoch -> Digest)
  {
    predicate Sane() {
      forkEpochs != [] && forkEpochs[0] == 0
    }

    /** The latest of the first `n` phases that has started by `epoch`. */
    function LatestPhase(n: nat, epoch: Epoch): Phase
      requires n <= |forkEpochs|
    {
      if n == 0 then 0 else if forkEpochs[n - 1] <= epoch then n - 1 else LatestPhase(n - 1, epoch)
    }

    function PhaseAt(epoch: Epoch): Phase {
      LatestPhase(|forkEpochs|, epoch)
    }
  }

  datatype HardFork = HardFork(name: Phase, epoch: Epoch, digest: Digest)

  /** Forks by epoch, oldest first. */
  type ForkMap = seq<HardFork>

  ghost predicate Sorted(forks: ForkMap) {
    forall i, j :: 0 <= i < j < |forks| ==> forks[i].epoch < forks[j].epoch
  }

  function Insert(forks: ForkMap, f: HardFork): ForkMap {
    if forks == [] || f.epoch < forks[0].epoch then [f] + forks
    else if f.epoch == forks[0].epoch then [f] + forks[1..]
    else [forks[0]] + Insert(forks[1..], f)
  }

  function Build(c: Config, epochs: seq<Epoch>): ForkMap {
    if epochs == [] then []
    else var e := epochs[|epochs| - 1];
         Insert(Build(c, epochs[..|epochs| - 1]), HardFork(c.PhaseAt(e), e, c.digestAt(e)))
  }

  function Enabled(epochs: seq<Epoch>): seq<Epoch> {
    if epochs == [] then []
    else if epochs[0] == FAR_FUTURE_EPOCH then Enabled(epochs[1..])
    else [epochs[0]] + Enabled(epochs[1..])
  }

  /** The forks known to the node: every enabled phase and every blob parameter change. */
  function NewForks(c: Config): ForkMap {
    Build(c, Enabled(c.forkEpochs) + c.blobEpochs)
  }

  /** The digest of the latest fork that has started by `epoch`. */
  function ContextBytes(forks: ForkMap, epoch: Epoch): Option<Digest> {
    if forks == [] then None
    else if forks[|forks| - 1].epoch <= epoch then Some(forks[|forks| - 1].digest)
    else ContextBytes(forks[..|forks| - 1], epoch)
  }

  /** The name of the oldest fork with this digest. */
  function ForkFromContextBytes(forks: ForkMap, digest: Digest): Option<Phase> {
    if forks == [] then None
    else if forks[0].digest == digest then Some(forks[0].name)
    else ForkFromContextBytes(forks[1..], digest)
  }

  // ----- What is in the map -----

  /** A sorted map whose entries are computed from their epochs. */
  ghost predicate Computed(c: Config, forks: ForkMap) {
    Sorted(forks) && (forall f :: f in forks ==> f == HardFork(c.PhaseAt(f.epoch), f.epoch, c.digestAt(f.epoch)))
  }

  ghost predicate Has(forks: ForkMap, e: Epoch) {
    exists f :: f in forks && f.epoch == e
  }

  lemma {:induction false} InsertKeeps(forks: ForkMap, f: HardFork)
    requires Sorted(forks)
    ensures Sorted(Insert(forks, f)) && Insert(forks, f) != []
    ensures Insert(forks, f)[0].epoch == if forks == [] || f.epoch <= forks[0].epoch then f.epoch else forks[0].epoch
    ensures forall g :: g in Insert(forks, f) ==> g == f || g in forks
    ensures f in Insert(forks, f) && (forall g :: g in forks && g.epoch != f.epoch ==> g in Insert(forks, f))
  {
    if forks != [] && f.epoch > forks[0].epoch {
      InsertKeeps(forks[1..], f);
    }
  }

  lemma {:induction false} BuildIsExact(c: Config, epochs: seq<Epoch>)
    ensures Computed(c, Build(c, epochs))
    ensures forall e :: e in epochs ==> Has(Build(c, epochs), e)
  {
    if epochs != [] {
      var e, init := epochs[|epochs| - 1], epochs[..|epochs| - 1];
      BuildIsExact(c, init);
      var f := HardFork(c.PhaseAt(e), e, c.digestAt(e));
      InsertKeeps(Build(c, init), f);
      forall x | x in epochs
        ensures Has(Build(c, epochs), x)
      {
        if x != e {
          assert x in init;
          var g :| g in Build(c, init) && g.epoch == x;
          assert g in Build(c, epochs);
        } else {
          assert f in Build(c, epochs);
        }
      }
    }
  }

  lemma {:induction false} EnabledIsExact(epochs: seq<Epoch>)
    ensures forall e :: e in Enabled(epochs) <==> e in epochs && e != FAR_FUTURE_EPOCH
  {
    if epochs != [] {
      EnabledIsExact(epochs[1..]);
    }
  }

  // ----- Looking up -----

  lemma {:induction false} LatestPhaseIsLatest(c: Config, n: nat, epoch: Epoch)
    requires c.Sane() && 0 < n <= |c.forkEpochs|
    ensures var p := c.LatestPhase(n, epoch);
            p < n && c.forkEpochs[p] <= epoch && (forall q :: p < q < n ==> c.forkEpochs[q] > epoch)
  {
    if c.forkEpochs[n - 1] > epoch {
      LatestPhaseIsLatest(c, n - 1, epoch);
    }
  }

  /** The fork found for an epoch is the latest one, and it has the phase of the epoch. */
  lemma {:induction false} ContextBytesAreThePhases(c: Config, forks: ForkMap, epoch: Epoch)
    requires c.Sane() && Computed(c, forks)
    requires forall e :: e in c.forkEpochs && e <= epoch ==> Has(forks, e)
    ensures exists f :: f in forks && ContextBytes(forks, epoch) == Some(f.digest) && f.name == c.PhaseAt(epoch)
  {
    LatestPhaseIsLatest(c, |c.forkEpochs|, epoch);
    var start := c.forkEpochs[c.PhaseAt(epoch)];
    assert Has(forks, start);
    var last := forks[|forks| - 1];
    if last.epoch <= epoch {
      LatestPhaseIsLatest(c, |c.forkEpochs|, last.epoch);
      assert start <= last.epoch;
      assert last in forks && last.name == c.PhaseAt(last.epoch);
    } else {
      var init := forks[..|forks| - 1];
      forall e | e in c.forkEpochs && e <= epoch
        ensures Has(init, e)
      {
        var f :| f in forks && f.epoch == e;
        assert f in init;
      }
      ContextBytesAreThePhases(c, init, epoch);
    }
  }

  ghost predicate DigestsTellPhasesApart(forks: ForkMap) {
    forall f, g :: f in forks && g in forks && f.digest == g.digest ==> f.name == g.name
  }

  lemma {:induction false} DigestNamesPhase(forks: ForkMap, f: HardFork)
    requires DigestsTellPhasesApart(forks) && f in forks
    ensures ForkFromContextBytes(forks, f.digest) == Some(f.name)
  {
    if forks[0].digest == f.digest {
      assert forks[0] in forks;
    } else {
      DigestNamesPhase(forks[1..], f);
    }
  }

  ghost predicate Recovers(c: Config, forks: ForkMap, epoch: Epoch) {
    var d := ContextBytes(forks, epoch);
    d.Some? && ForkFromContextBytes(forks, d.value) == Some(c.PhaseAt(epoch))
  }

  /** The phase recovered from the context bytes of an epoch is the phase of that epoch. */
  lemma PhaseIsRecovered(c: Config, epoch: Epoch)
    requires c.Sane() && epoch < FAR_FUTURE_EPOCH && DigestsTellPhasesApart(NewForks(c))
    ensures Recovers(c, NewForks(c), epoch)
  {
    var forks := NewForks(c);
    BuildIsExact(c, Enabled(c.forkEpochs) + c.blobEpochs);
    EnabledIsExact(c.forkEpochs);
    ContextBytesAreThePhases(c, forks, epoch);
    var f :| f in forks && ContextBytes(forks, epoch) == Some(f.digest) && f.name == c.PhaseAt(epoch);
    DigestNamesPhase(forks, f);
  }

  // ----- The condition on digests is exact -----

  lemma {:induction false} ContextBytesOfFork(forks: ForkMap, f: HardFork)
    requires Sorted(forks) && f in forks
    ensures ContextBytes(forks, f.epoch) == Some(f.digest)
  {
    var i :| 0 <= i < |forks| && forks[i] == f;
    if i < |forks| - 1 {
      assert forks[i].epoch < forks[|forks| - 1].epoch;
      assert f == forks[..|forks| - 1][i];
      ContextBytesOfFork(forks[..|forks| - 1], f);
    }
  }

  /** Every phase is recovered if and only if no two phases share a digest. */
  lemma RecoveredIffApart(c: Config)
    requires c.Sane() && (forall e :: e in c.blobEpochs ==> e < FAR_FUTURE_EPOCH) && (forall e :: e in c.forkEpochs ==> e <= FAR_FUTURE_EPOCH)
    ensures DigestsTellPhasesApart(NewForks(c)) <==> forall epoch: Epoch :: epoch < FAR_FUTURE_EPOCH ==> Recovers(c, NewForks(c), epoch)
  {
    var forks := NewForks(c);
    if DigestsTellPhasesApart(forks) {
      forall epoch: Epoch | epoch < FAR_FUTURE_EPOCH
        ensures Recovers(c, forks, epoch)
      {
        PhaseIsRecovered(c, epoch);
      }
    }
    if forall epoch: Epoch :: epoch < FAR_FUTURE_EPOCH ==> Recovers(c, forks, epoch) {
      forall f, g | f in forks && g in forks && f.digest == g.digest
        ensures f.name == g.name
      {
        RecoveredName(c, f);
        RecoveredName(c, g);
      }
    }
  }

  lemma {:induction false} EpochsAreGiven(c: Config, epochs: seq<Epoch>)
    ensures forall f :: f in Build(c, epochs) ==> f.epoch in epochs
  {
    if epochs != [] {
      var e, init := epochs[|epochs| - 1], epochs[..|epochs| - 1];
      EpochsAreGiven(c, init);
      BuildIsExact(c, init);
      InsertKeeps(Build(c, init), HardFork(c.PhaseAt(e), e, c.digestAt(e)));
    }
  }

  lemma RecoveredName(c: Config, f: HardFork)
    requires c.Sane() && (forall e :: e in c.blobEpochs ==> e < FAR_FUTURE_EPOCH) && (forall e :: e in c.forkEpochs ==> e <= FAR_FUTURE_EPOCH)
    requires f in NewForks(c) && (forall epoch: Epoch :: epoch < FAR_FUTURE_EPOCH ==> Recovers(c, NewForks(c), epoch))
    ensures ForkFromContextBytes(NewForks(c), f.digest) == Some(f.name)
  {
    var epochs := Enabled(c.forkEpochs) + c.blobEpochs;
    BuildIsExact(c, epochs);
    EpochsAreGiven(c, epochs);
    EnabledIsExact(c.forkEpochs);
    ContextBytesOfFork(NewForks(c), f);
    assert Recovers(c, NewForks(c), f.epoch);
  }
}
