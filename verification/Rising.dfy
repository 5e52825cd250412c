/** Values along a run. */
module Rising {
  lemma {:induction false} RisesAlong(v: seq<nat>, i: nat, j: nat)
    requires i <= j < |v| && forall n | 0 <= n < |v| - 1 :: v[n] <= v[n + 1]
    ensures v[i] <= v[j]
  {
    if i < j { RisesAlong(v, i, j - 1); }
  }

  lemma {:induction false} StaysAlong<T>(v: seq<T>, i: nat, j: nat)
    requires i <= j < |v| && forall n | i <= n < j :: v[n] == v[n + 1]
    ensures v[i] == v[j]
  {
    if i < j { StaysAlong(v, i, j - 1); }
  }

  /** What held at first and does not at last was given up somewhere between. */
  lemma {:induction false} EndsAlong(v: seq<bool>, i: nat, j: nat) returns (k: nat)
    requires i <= j < |v| && v[i] && !v[j]
    ensures i <= k < j && v[k] && !v[k + 1]
  {
    if v[j - 1] { k := j - 1; } else { k := EndsAlong(v, i, j - 1); }
  }

  lemma {:induction false} KeptAlong(v: seq<bool>, i: nat, j: nat)
    requires i <= j < |v| && v[i] && forall n | i <= n < j :: v[n] ==> v[n + 1]
    ensures v[j]
  {
    if i < j { KeptAlong(v, i, j - 1); }
  }
}
