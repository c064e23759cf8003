/** The integers computed while components are solved, kept for the proof only. */
module Ledgers {

  /** `values` are the numbers of the solver that are read back: reduced costs and the differences
      leading to them, deltas, minima, and the potentials of rows and columns. `roots` are the
      potentials written at the root column, which no later step reads. `totals` are the weights
      of whole matchings. */
  datatype Ledger = Ledger(values: set<int>, roots: set<int>, totals: set<int>)

  ghost function Blank(): Ledger {
    Ledger({}, {}, {})
  }

  ghost function Joined(l: Ledger, k: Ledger): Ledger {
    Ledger(l.values + k.values, l.roots + k.roots, l.totals + k.totals)
  }

  ghost predicate Within(l: Ledger, values: int, roots: int, totals: int) {
    && (forall x :: x in l.values ==> -values <= x <= values)
    && (forall x :: x in l.roots ==> -roots <= x <= roots)
    && (forall x :: x in l.totals ==> 0 <= x <= totals)
  }

  lemma BlankWithin(values: int, roots: int, totals: int)
    ensures Within(Blank(), values, roots, totals)
  {
  }

  lemma JoinedWithin(l: Ledger, k: Ledger, values: int, roots: int, totals: int)
    requires Within(l, values, roots, totals) && Within(k, values, roots, totals)
    ensures Within(Joined(l, k), values, roots, totals)
  {
  }

  lemma JoinedRoots(l: Ledger, k: Ledger)
    ensures Joined(l, k).roots == l.roots + k.roots
  {
  }

  lemma WithinMore(l: Ledger, values: int, roots: int, totals: int, values': int, roots': int, totals': int)
    requires Within(l, values, roots, totals) && values <= values' && roots <= roots' && totals <= totals'
    ensures Within(l, values', roots', totals')
  {
  }
}
