/** The compiler's two tables (name2pt and losses), name resolution (lookup_pts) and loss
    registration as done by `add`. */
module Tables {
  import opened Points
  import opened Results
  import opened Keys

  /** A registered loss term: its residual and its weight. */
  datatype Loss = Loss(value: real, weight: real)

  /** The point table, the loss table and the number of trainable variables made so far
      (the next one made gets that number). */
  datatype State = State(points: map<string, Point>, losses: map<string, Loss>, nvars: nat)

  const Initial: State := State(map[], map[], 0)

  /** t extends s: no point or loss name is forgotten and no variable number is reused. */
  predicate Grows(s: State, t: State) {
    s.points.Keys <= t.points.Keys && s.losses.Keys <= t.losses.Keys && s.nvars <= t.nvars
  }

  predicate AllDefined(pts: map<string, Point>, ps: seq<string>) {
    forall i :: 0 <= i < |ps| ==> ps[i] in pts
  }

  /** Resolves names to points in order; the first name without a point is the error. */
  function LookupPts(pts: map<string, Point>, ps: seq<string>): (r: Result<seq<Point>>)
    ensures r.Ok? <==> AllDefined(pts, ps)
    ensures r.Ok? ==> |r.value| == |ps| && forall i :: 0 <= i < |ps| ==> r.value[i] == pts[ps[i]]
    ensures r.Err? ==> exists j :: 0 <= j < |ps| && ps[j] !in pts && AllDefined(pts, ps[..j])
                                 && r.error == UndefinedPoint(ps[j])
  {
    if |ps| == 0 then Ok([])
    else if ps[0] !in pts then
      assert AllDefined(pts, ps[..0]);
      Err(UndefinedPoint(ps[0]))
    else
      var rest := LookupPts(pts, ps[1..]);
      if rest.Err? then
        assert forall j :: 0 <= j < |ps| - 1 && AllDefined(pts, ps[1..][..j]) ==> AllDefined(pts, ps[..j + 1]);
        Err(rest.error)
      else Ok([pts[ps[0]]] + rest.value)
  }

  /** Resolves names and unpacks the points into exactly n names, as `A, B = lookup_pts(ps)`
      does: a missing name is reported before a wrong count. */
  function LookupExactly(pts: map<string, Point>, ps: seq<string>, n: nat): (r: Result<seq<Point>>)
    ensures r.Ok? <==> AllDefined(pts, ps) && |ps| == n
    ensures r.Ok? ==> |r.value| == n && forall i :: 0 <= i < n ==> r.value[i] == pts[ps[i]]
    ensures !AllDefined(pts, ps) ==> r == LookupPts(pts, ps)
    ensures AllDefined(pts, ps) && |ps| != n ==> r == Err(ArityMismatch)
  {
    var vs :- LookupPts(pts, ps);
    if |vs| != n then Err(ArityMismatch) else Ok(vs)
  }

  /** Registers vals[i..] under their loss keys with the common weight w, in order. */
  function RegisterFrom(L: map<string, Loss>, aStr: string, vals: seq<real>, w: real, i: nat): (r: map<string, Loss>)
    requires i <= |vals|
    ensures forall j :: i <= j < |vals| ==> LossKey(aStr, |vals|, j) in r
    ensures forall j :: i <= j < |vals| ==> r[LossKey(aStr, |vals|, j)] == Loss(vals[j], w)
    ensures forall key :: key in r <==> key in L || exists j :: i <= j < |vals| && key == LossKey(aStr, |vals|, j)
    ensures forall key :: key in L && (forall j :: i <= j < |vals| ==> key != LossKey(aStr, |vals|, j))
                          ==> r[key] == L[key]
    decreases |vals| - i
  {
    if i == |vals| then L
    else
      KeysDistinctFrom(aStr, |vals|, i);
      RegisterFrom(L[LossKey(aStr, |vals|, i) := Loss(vals[i], w)], aStr, vals, w, i + 1)
  }

  /** add's registration: each of the k residuals under its key with weight 1/k; no residual
      at all is a division by zero. */
  function AddLosses(L: map<string, Loss>, aStr: string, vals: seq<real>): (r: Result<map<string, Loss>>)
    ensures r.Ok? <==> |vals| > 0
    ensures r.Err? ==> r.error == Degenerate
    ensures r.Ok? ==> forall j :: 0 <= j < |vals| ==>
              LossKey(aStr, |vals|, j) in r.value && r.value[LossKey(aStr, |vals|, j)] == Loss(vals[j], 1.0 / (|vals| as real))
    ensures r.Ok? ==> forall key :: key in r.value <==> key in L || exists j :: 0 <= j < |vals| && key == LossKey(aStr, |vals|, j)
    ensures r.Ok? ==> forall key :: key in L && (forall j :: 0 <= j < |vals| ==> key != LossKey(aStr, |vals|, j))
                                    ==> r.value[key] == L[key]
  {
    if |vals| == 0 then Err(Degenerate)
    else Ok(RegisterFrom(L, aStr, vals, 1.0 / (|vals| as real), 0))
  }

  /** The keys under which an assertion with k residuals registers them, in order. */
  function LossKeys(aStr: string, k: nat): (keys: seq<string>)
    ensures |keys| == k && forall j :: 0 <= j < k ==> keys[j] == LossKey(aStr, k, j)
  {
    seq(k, j requires 0 <= j < k => LossKey(aStr, k, j))
  }

  /** The total weight of the loss terms stored under the given keys. */
  function WeightSum(L: map<string, Loss>, keys: seq<string>): real
    requires forall j :: 0 <= j < |keys| ==> keys[j] in L
  {
    if |keys| == 0 then 0.0 else WeightSum(L, keys[..|keys| - 1]) + L[keys[|keys| - 1]].weight
  }

  // ---------------------------------------------------------------------------
  // Laws
  // ---------------------------------------------------------------------------

  /** The weights of the loss terms one assertion registers sum to 1. */
  lemma AddLossesWeightsSumToOne(L: map<string, Loss>, aStr: string, vals: seq<real>)
    requires |vals| > 0
    ensures forall j :: 0 <= j < |vals| ==> LossKeys(aStr, |vals|)[j] in AddLosses(L, aStr, vals).value
    ensures WeightSum(AddLosses(L, aStr, vals).value, LossKeys(aStr, |vals|)) == 1.0
  {
    SharesSumToOne(AddLosses(L, aStr, vals).value, LossKeys(aStr, |vals|), |vals|);
  }

  /** k terms each of weight 1/k weigh 1 together. */
  lemma SharesSumToOne(M: map<string, Loss>, keys: seq<string>, k: nat)
    requires k > 0 && |keys| == k
    requires forall j :: 0 <= j < k ==> keys[j] in M && M[keys[j]].weight == 1.0 / (k as real)
    ensures WeightSum(M, keys) == 1.0
  {
    WeightSumOfEqualWeights(M, keys, 1.0 / (k as real));
    EqualSharesOfOne(WeightSum(M, keys), |keys|, k);
  }

  /** n shares of 1/n make one. */
  lemma EqualSharesOfOne(total: real, n: nat, m: nat)
    requires n == m && m > 0 && total == (n as real) * (1.0 / (m as real))
    ensures total == 1.0
  {
  }

  /** n terms of weight w weigh n w together. */
  lemma {:induction false} WeightSumOfEqualWeights(L: map<string, Loss>, keys: seq<string>, w: real)
    requires forall j :: 0 <= j < |keys| ==> keys[j] in L && L[keys[j]].weight == w
    ensures WeightSum(L, keys) == (|keys| as real) * w
  {
    if |keys| > 0 {
      var init := keys[..|keys| - 1];
      WeightSumOfEqualWeights(L, init, w);
      OneMoreShare(WeightSum(L, init), |init| as real, |keys| as real, w);
    }
  }

  lemma OneMoreShare(prev: real, m: real, n: real, w: real)
    requires prev == m * w && n == m + 1.0
    ensures prev + w == n * w
  {
  }

  /** Registering into a table never loses a key. */
  lemma AddLossesKeepsKeys(L: map<string, Loss>, aStr: string, vals: seq<real>)
    requires |vals| > 0
    ensures L.Keys <= AddLosses(L, aStr, vals).value.Keys
  {
  }

  lemma KeysDistinctFrom(aStr: string, k: nat, i: nat)
    requires i < k
    ensures forall j :: i < j < k ==> LossKey(aStr, k, i) != LossKey(aStr, k, j)
  {
    forall j | i < j < k
      ensures LossKey(aStr, k, i) != LossKey(aStr, k, j)
    {
      LossKeysDistinct(aStr, k, i, j);
    }
  }
}
