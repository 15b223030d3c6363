/** The request-keyed table of staged blocks (src/mpiwrapper/staging.c): probe order and key words. */
module StagedKeys {
  import opened Common

  const KEY_EMPTY: Word := 0
  const KEY_LOCKED: Word := 0xFFFF_FFFF_FFFF_FFFF
  const KEY_TOMB: Word := 0xFFFF_FFFF_FFFF_FFFE

  predicate Reserved(k: Word) {
    k == KEY_EMPTY || k == KEY_LOCKED || k == KEY_TOMB
  }

  /** A slot an attach may take. */
  predicate Free(k: Word) {
    k == KEY_EMPTY || k == KEY_TOMB
  }

  /** Multiply-shift hashing of a request handle onto `n` slots. */
  function Home(key: Word, n: nat): (h: nat)
    requires n > 0
    ensures h < n
  {
    ((key * 0x9e3779b97f4a7c15) % TWO64 / 0x1_0000_0000) % n
  }

  /** The slot visited by the i-th probe from `home`. */
  function Slot(home: nat, n: nat, i: nat): (p: nat)
    requires home < n && i < n
    ensures p < n
  {
    if home + i < n then home + i else home + i - n
  }

  /** The probe sequence advances by `slot = (slot + 1) % n`. */
  lemma ProbeOrder(home: nat, n: nat, i: nat)
    requires home < n && i + 1 < n
    ensures Slot(home, n, i + 1) == (Slot(home, n, i) + 1) % n
  {
  }

  /** The first n probes visit pairwise different slots. */
  lemma ProbesDiffer(home: nat, n: nat, i: nat, j: nat)
    requires home < n && i < n && j < n && i != j
    ensures Slot(home, n, i) != Slot(home, n, j)
  {
  }
}
