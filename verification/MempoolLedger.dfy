/**
  The bookkeeping of one pool of libix/mempool.c and dp/core/mempool.c: how many elements its list and its private
  chunk really have, and `num_free`, which decides when a list is full. Lengths and counter drift apart, because
  mempool_alloc_2 gives the pool a whole list and leaves `num_free` as it is.
 */
module MempoolLedger {

  datatype Ledger = Ledger(len: nat, priv: nat, free: int)

  /** What a call does: give out a listed element, list the private chunk or a datastore chunk and give out its
      first element, list a freed element, or retire the full list and start a new one with a freed element. */
  datatype Act = Pop | FetchPrivate | FetchChunk(size: nat) | Push | Retire

  predicate Possible(l: Ledger, a: Act, chunkSize: int)
  {
    match a
    case Pop => 0 < l.len
    case FetchPrivate => l.len == 0 && 0 < l.priv
    case FetchChunk(size) => l.len == 0 && l.priv == 0 && 0 < size
    case Push => l.free < chunkSize
    case Retire => l.free == chunkSize
  }

  function Next(l: Ledger, a: Act, chunkSize: int, resets: bool): Ledger
    requires Possible(l, a, chunkSize)
  {
    match a
    case Pop => Ledger(l.len - 1, l.priv, l.free - 1)
    case FetchPrivate => Ledger(l.priv - 1, 0, l.free)
    case FetchChunk(size) => Ledger(size - 1, 0, l.free)
    case Push => Ledger(l.len + 1, l.priv, l.free + 1)
    case Retire => Ledger(1, l.len, if resets then 1 else l.free)
  }

  /** How many more elements are listed than counted. */
  function Drift(l: Ledger): int
  {
    l.len - l.free
  }

  /** The elements an act lists without counting them. */
  function Gain(l: Ledger, a: Act): int
  {
    match a
    case FetchPrivate => l.priv - 1
    case FetchChunk(size) => size - 1
    case _ => 0
  }

  /** The fast paths keep the drift, a fetched list of n elements adds n - 1. */
  lemma DriftStep(l: Ledger, a: Act, chunkSize: int, resets: bool)
    requires Possible(l, a, chunkSize) && a != Retire
    ensures Drift(Next(l, a, chunkSize, resets)) == Drift(l) + Gain(l, a)
  {
  }

  /** A retired list has the chunk size exactly when there was no drift. */
  lemma RetireSize(l: Ledger, chunkSize: int, resets: bool)
    requires Possible(l, Retire, chunkSize)
    ensures Next(l, Retire, chunkSize, resets).priv == chunkSize + Drift(l)
    ensures Next(l, Retire, chunkSize, resets).priv == chunkSize <==> Drift(l) == 0
  {
  }

  /** Retiring ends the drift in dp/core; in libix it leaves the pool with a drift of its own. */
  lemma RetireDrift(l: Ledger, chunkSize: int, resets: bool)
    requires Possible(l, Retire, chunkSize)
    ensures Drift(Next(l, Retire, chunkSize, resets)) == if resets then 0 else 1 - chunkSize
    ensures Drift(Next(l, Retire, chunkSize, resets)) == 0 <==> resets || chunkSize == 1
  {
  }

  // ----- Whole runs -----

  /** `m` is reached from `l` by some acts, none of which retires the list. */
  predicate Runs(l: Ledger, acts: seq<Act>, chunkSize: int, resets: bool, m: Ledger)
    decreases |acts|
  {
    if acts == [] then l == m
    else
      && Possible(l, acts[0], chunkSize) && acts[0] != Retire
      && Runs(Next(l, acts[0], chunkSize, resets), acts[1..], chunkSize, resets, m)
  }

  function Gains(l: Ledger, acts: seq<Act>, chunkSize: int, resets: bool, m: Ledger): int
    requires Runs(l, acts, chunkSize, resets, m)
    decreases |acts|
  {
    if acts == [] then 0
    else Gain(l, acts[0]) + Gains(Next(l, acts[0], chunkSize, resets), acts[1..], chunkSize, resets, m)
  }

  lemma {:induction false} DriftOverRun(l: Ledger, acts: seq<Act>, chunkSize: int, resets: bool, m: Ledger)
    requires Runs(l, acts, chunkSize, resets, m)
    ensures Drift(m) == Drift(l) + Gains(l, acts, chunkSize, resets, m)
    ensures 0 <= Gains(l, acts, chunkSize, resets, m)
    decreases |acts|
  {
    if acts != [] {
      DriftStep(l, acts[0], chunkSize, resets);
      DriftOverRun(Next(l, acts[0], chunkSize, resets), acts[1..], chunkSize, resets, m);
    }
  }

  /** Some fetch of the run listed more than the element it gave out. */
  predicate Fetches(l: Ledger, acts: seq<Act>, chunkSize: int, resets: bool, m: Ledger)
    requires Runs(l, acts, chunkSize, resets, m)
    decreases |acts|
  {
    acts != [] &&
    (0 < Gain(l, acts[0]) || Fetches(Next(l, acts[0], chunkSize, resets), acts[1..], chunkSize, resets, m))
  }

  lemma {:induction false} GainsMeanFetches(l: Ledger, acts: seq<Act>, chunkSize: int, resets: bool, m: Ledger)
    requires Runs(l, acts, chunkSize, resets, m)
    ensures Fetches(l, acts, chunkSize, resets, m) <==> 0 < Gains(l, acts, chunkSize, resets, m)
    decreases |acts|
  {
    if acts != [] {
      var n := Next(l, acts[0], chunkSize, resets);
      DriftOverRun(n, acts[1..], chunkSize, resets, m);
      GainsMeanFetches(n, acts[1..], chunkSize, resets, m);
    }
  }

  /** The first list a new pool retires, and in dp/core every list it retires: it has the chunk size exactly when
      no fetch since the pool was new, or since it last retired a list, brought more than one element. */
  lemma RetiredExactly(l: Ledger, acts: seq<Act>, chunkSize: int, resets: bool, m: Ledger)
    requires Drift(l) == 0 && Runs(l, acts, chunkSize, resets, m) && Possible(m, Retire, chunkSize)
    ensures Next(m, Retire, chunkSize, resets).priv >= chunkSize
    ensures Next(m, Retire, chunkSize, resets).priv == chunkSize <==> !Fetches(l, acts, chunkSize, resets, m)
  {
    DriftOverRun(l, acts, chunkSize, resets, m);
    GainsMeanFetches(l, acts, chunkSize, resets, m);
    RetireSize(m, chunkSize, resets);
  }

  /** In libix every later list has one element more than the fetches since the last retirement have brought
      uncounted: with none of those, a single element, whatever the chunk size. */
  lemma RetiredAgain(k: Ledger, acts: seq<Act>, chunkSize: int, m: Ledger)
    requires Possible(k, Retire, chunkSize)
    requires var l := Next(k, Retire, chunkSize, false);
             Runs(l, acts, chunkSize, false, m) && Possible(m, Retire, chunkSize)
    ensures var l := Next(k, Retire, chunkSize, false);
            && Next(m, Retire, chunkSize, false).priv == 1 + Gains(l, acts, chunkSize, false, m)
            && (Next(m, Retire, chunkSize, false).priv == 1 <==> !Fetches(l, acts, chunkSize, false, m))
  {
    var l := Next(k, Retire, chunkSize, false);
    DriftOverRun(l, acts, chunkSize, false, m);
    GainsMeanFetches(l, acts, chunkSize, false, m);
    RetireDrift(k, chunkSize, false);
    RetireSize(m, chunkSize, false);
  }
}
