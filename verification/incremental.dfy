/** The incremental branch of GaussianProcess::add_patterns set against
    the 4n index layout of compute. */
module Incremental {
  import GaussianProcess
  import Layout

  /** The kernel terms the incremental update of add_patterns builds row j
      of L from, for every new sample j: k(x(c), x(j)) for each column c < j
      and k(x(j), x(j)) on the diagonal. */
  function IncrementalTerms(n: nat, nnew: nat): (ws: set<Layout.Write>)
  {
    set j: nat, c: nat | n <= j < nnew && c <= j :: Layout.Write(j, c, Layout.K(c, j))
  }

  /** L holds the 4n-layout factor of the old samples, whose row n is the
      derivative row of sample 0 along axis 0; the incremental update
      rewrites it with a value term. In the layout of the new sample set it
      writes only value rows and leaves every derivative row untouched, so
      the factor L holds afterwards belongs to no sample set. */
  lemma IncrementalOverwritesDerivativeRows(s: GaussianProcess.Gp, count: nat, yAdded: nat)
    requires 0 < s.n && 0 < count
    ensures Layout.ChannelOf(s.n, s.n) == Layout.Derivative(0, 0)
    ensures Layout.Write(s.n, 0, Layout.K(0, s.n)) in IncrementalTerms(s.n, GaussianProcess.AddPatterns(s, count, yAdded).gp.n)
    ensures Layout.K(0, s.n) != Layout.Expected(s.n, s.n, 0)
    ensures var nnew := GaussianProcess.AddPatterns(s, count, yAdded).gp.n;
            forall w :: w in IncrementalTerms(s.n, nnew) ==> Layout.ChannelOf(nnew, w.row).Value?
    ensures var nnew := GaussianProcess.AddPatterns(s, count, yAdded).gp.n;
            forall row: nat :: nnew <= row < 4 * nnew ==>
              Layout.ChannelOf(nnew, row).Derivative? &&
              forall w :: w in IncrementalTerms(s.n, nnew) ==> w.row != row
    ensures !GaussianProcess.FactorCurrent(GaussianProcess.AddPatterns(s, count, yAdded).gp)
  {
    assert Layout.Write(s.n, 0, Layout.K(0, s.n)) in IncrementalTerms(s.n, s.n + count);
  }
}
