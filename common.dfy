/** Values shared by every part of the hybrid edge + KLT pose loop. */
module Common {

  /** A rigid transform (vpHomogeneousMatrix), kept as its 16 entries in row-major order.
      Only the numerical collaborators look inside it. */
  type Pose = seq<real>

  /** The default-constructed vpHomogeneousMatrix. */
  const Identity: Pose := [1.0, 0.0, 0.0, 0.0,
                           0.0, 1.0, 0.0, 0.0,
                           0.0, 0.0, 1.0, 0.0,
                           0.0, 0.0, 0.0, 1.0]

  /** The exceptions the core raises. */
  datatype TrackError =
    | DimensionError          // vpException::dimensionError, "lvl not used."
    | NotEnoughPoints         // vpTrackingException::notEnoughPointError
    | Diverged                // vpTrackingException::fatalError, "Optimization diverged"
    | InteractionMatrixFailed // vpTrackingException::fatalError, "Cannot compute interaction matrix"
    | KltFailed               // an exception of a KLT polygon collaborator, propagated unchanged

  datatype Result<T> = Ok(value: T) | Err(error: TrackError)

  datatype Option<T> = None | Some(value: T)

  /** The rows a feature group produces: interaction-matrix rows (6 columns each) and error entries. */
  datatype Block = Block(L: seq<seq<real>>, error: seq<real>)

  predicate BlockFits(b: Block, rows: nat) {
    |b.L| == rows && |b.error| == rows && forall i :: 0 <= i < rows ==> |b.L[i]| == 6
  }

  /** Sum of the entries, accumulated from the first entry on. */
  function Sum(ws: seq<real>): real {
    if ws == [] then 0.0 else Sum(ws[..|ws| - 1]) + ws[|ws| - 1]
  }

  lemma {:induction false} SumAppend(a: seq<real>, b: seq<real>)
    ensures Sum(a + b) == Sum(a) + Sum(b)
  {
    if b != [] {
      assert (a + b)[..|a + b| - 1] == a + b[..|b| - 1];
      SumAppend(a, b[..|b| - 1]);
    } else {
      assert a + b == a;
    }
  }

  /** A vector of ones sums to its length. */
  lemma {:induction false} SumOnes(ws: seq<real>)
    requires forall i :: 0 <= i < |ws| ==> ws[i] == 1.0
    ensures Sum(ws) == |ws| as real
  {
    if ws != [] {
      SumOnes(ws[..|ws| - 1]);
    }
  }

  /** vpColVector::sumSquare. */
  function SumSquare(ws: seq<real>): real {
    if ws == [] then 0.0 else SumSquare(ws[..|ws| - 1]) + ws[|ws| - 1] * ws[|ws| - 1]
  }

  /** A vector of n entries, every one equal to x (vpColVector::resize followed by `= x`). */
  function Constant(n: nat, x: real): (r: seq<real>)
    ensures |r| == n && forall i :: 0 <= i < n ==> r[i] == x
  {
    seq(n, _ => x)
  }
}
