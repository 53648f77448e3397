/** The bandit policies: epsilon-greedy over per-action counters, LinUCB
    with per-action inverse Gram matrices kept up to date by the
    Sherman-Morrison update, and FairLinUCB, which first forces the action
    furthest behind its target share. Updates are staged in `*_temp`
    counters and committed to the live ones every `batch_size` trials.
    Random draws are parameters. */
module Bandit {
  import opened Common
  import opened LinAlg
  import opened Ranking

  datatype PolicyError =
    | InvalidEpsilon          // `check_scalar` rejects epsilon
    | ContextNotOneRow        // `context.shape[0] != 1`
    | ContextWidthMismatch    // `context @ A_inv[i]` with a context not `dim` wide
    | PositionOutOfRange      // `[available_items]` with a position out of range
    | SampleLargerThanPool    // `choice(..., replace=False)` with too few candidates
    | WeightShapeMismatch     // `fairness_weight` does not broadcast against the counters

  // ---------------------------------------------------------------------------
  // Batch commits
  // ---------------------------------------------------------------------------

  /** The trials covered by the last commit: the largest multiple of the
      batch size not above `n`. */
  function Committed(n: nat, batchSize: nat): int
    requires batchSize >= 1
  {
    n - n % batchSize
  }

  lemma {:induction false} MulBounds(k: int, b: nat)
    ensures k >= 1 ==> k * b >= b
    ensures k <= -1 ==> k * b <= -(b as int)
    decreases if k < 0 then -k else k
  {
    if k > 1 {
      MulBounds(k - 1, b);
      assert k * b == (k - 1) * b + b;
    } else if k < -1 {
      MulBounds(k + 1, b);
      assert k * b == (k + 1) * b - b;
    }
  }

  lemma ModUnique(x: int, b: int, q: int, r: int)
    requires b >= 1 && x == q * b + r && 0 <= r < b
    ensures x % b == r
  {
    var q', r' := x / b, x % b;
    assert x == q' * b + r';
    var k := q - q';
    assert k * b == r' - r by {
      assert q * b - q' * b == (q - q') * b;
    }
    MulBounds(k, b);
    assert k == 0;
  }

  /** One more trial either completes a batch, or leaves the committed
      trial count where it was. */
  lemma CommittedStep(n: nat, b: nat)
    requires b >= 1
    ensures (n + 1) % b == 0 || Committed(n + 1, b) == Committed(n, b)
  {
    var q, r := n / b, n % b;
    assert n == q * b + r;
    if r + 1 < b {
      ModUnique(n + 1, b, q, r + 1);
    } else {
      ModUnique(n + 1, b, q + 1, 0);
    }
  }

  // ---------------------------------------------------------------------------
  // Epsilon-greedy
  // ---------------------------------------------------------------------------

  /** Mean observed reward per action, `reward_counts / action_counts`. */
  function Means(rewardSums: seq<real>, counts: seq<int>): (m: seq<real>)
    requires |rewardSums| == |counts|
    requires forall i :: 0 <= i < |counts| ==> counts[i] > 0
    ensures |m| == |counts|
  {
    seq(|counts|, i requires 0 <= i < |counts| => rewardSums[i] / (counts[i] as real))
  }

  /** With every reward sum at zero, every mean is zero. */
  lemma MeansOfZeroSums(rewardSums: seq<real>, counts: seq<int>)
    requires |rewardSums| == |counts|
    requires forall i :: 0 <= i < |counts| ==> counts[i] > 0
    requires forall i :: 0 <= i < |rewardSums| ==> rewardSums[i] == 0.0
    ensures forall i :: 0 <= i < |counts| ==> Means(rewardSums, counts)[i] == 0.0
  {
  }

  /** The candidates of `choice`: the available items when there are any,
      otherwise `range(n_actions)`. */
  function Pool(available: seq<int>, nActions: nat): (p: seq<int>)
    ensures available == [] ==> |p| == nActions
  {
    if available == [] then seq(nActions, i => i) else available
  }

  /** The draw of `choice(pool, size=k, replace=False)`: distinct positions
      of the pool, as many as asked for whenever the pool is big enough. */
  predicate ValidPicks(picks: seq<nat>, poolSize: nat, k: nat)
  {
    k <= poolSize ==> |picks| == k && InRange(picks, poolSize) && Distinct(picks)
  }

  function Sample(pool: seq<int>, picks: seq<nat>): (r: seq<int>)
    requires InRange(picks, |pool|)
    ensures |r| == |picks|
  {
    seq(|picks|, i requires 0 <= i < |picks| => pool[picks[i]])
  }

  class EpsilonGreedy {
    const nActions: nat
    const lenList: nat
    const batchSize: nat
    const epsilon: real

    var nTrial: nat
    const actionCounts: array<int>
    const rewardCounts: array<real>
    const actionCountsTemp: array<int>
    const rewardCountsTemp: array<real>

    /** The counters have one entry per action; the live trial counts are
        the staged ones as of the last completed batch; the live reward sums
        are never written and stay zero. */
    ghost predicate Valid()
      reads this, actionCounts, rewardCounts, actionCountsTemp, rewardCountsTemp
    {
      && nActions >= 1 && lenList >= 1 && batchSize >= 1
      && 0.0 <= epsilon <= 1.0
      && actionCounts.Length == nActions && rewardCounts.Length == nActions
      && actionCountsTemp.Length == nActions && rewardCountsTemp.Length == nActions
      && actionCounts != actionCountsTemp && rewardCounts != rewardCountsTemp
      && (forall i :: 0 <= i < nActions ==> rewardCounts[i] == 0.0)
      && NonNegative(actionCounts[..]) && NonNegative(actionCountsTemp[..])
      && CountSum(actionCountsTemp[..]) == nTrial
      && CountSum(actionCounts[..]) == Committed(nTrial, batchSize)
    }

    /** `__post_init__` after the base class has zeroed the counters. */
    constructor (nActions: nat, lenList: nat, batchSize: nat, epsilon: real)
      requires nActions >= 1 && lenList >= 1 && batchSize >= 1
      requires 0.0 <= epsilon <= 1.0
      ensures Valid()
      ensures this.nActions == nActions && this.lenList == lenList
      ensures this.batchSize == batchSize && this.epsilon == epsilon
      ensures nTrial == 0
      ensures fresh(actionCounts) && fresh(rewardCounts) && fresh(actionCountsTemp) && fresh(rewardCountsTemp)
    {
      this.nActions := nActions;
      this.lenList := lenList;
      this.batchSize := batchSize;
      this.epsilon := epsilon;
      nTrial := 0;
      actionCounts := new int[nActions](_ => 0);
      rewardCounts := new real[nActions](_ => 0.0);
      actionCountsTemp := new int[nActions](_ => 0);
      rewardCountsTemp := new real[nActions](_ => 0.0);
      new;
      ZeroCountSum(nActions);
      assert actionCounts[..] == seq(nActions, _ => 0);
      assert actionCountsTemp[..] == seq(nActions, _ => 0);
    }

    /** `random_.rand() > epsilon` and every action tried at least once. */
    predicate Exploits(draw: real)
      reads this, actionCounts
    {
      draw > epsilon && forall i :: 0 <= i < actionCounts.Length ==> actionCounts[i] > 0
    }

    /** `select_action`: when it exploits, the actions ranked by mean
        reward; otherwise `len_list` distinct draws from the candidates. */
    method SelectAction(draw: real, available: seq<int>, picks: seq<nat>)
      returns (r: Result<seq<int>, PolicyError>)
      requires Valid()
      requires ValidPicks(picks, |Pool(available, nActions)|, lenList)
      ensures Exploits(draw) && available == [] ==>
                var means := Means(rewardCounts[..], actionCounts[..]);
                && r.Success?
                && |r.value| == Min(lenList, nActions)
                && (forall p :: 0 <= p < |r.value| ==> 0 <= r.value[p] < nActions)
                && (forall p, q :: 0 <= p < q < |r.value| ==>
                      r.value[p] != r.value[q] && means[r.value[p]] >= means[r.value[q]])
      ensures Exploits(draw) && available != [] ==>
                && (r.Success? <==> PositionsInRange(available, nActions))
                && (r.Success? ==> |r.value| == Min(lenList, |available|)
                                   && forall p :: 0 <= p < |r.value| ==> 0 <= r.value[p] < nActions)
      ensures !Exploits(draw) ==>
                var pool := Pool(available, nActions);
                && (lenList > |pool| ==> r == Failure(SampleLargerThanPool))
                && (lenList <= |pool| ==> r == Success(Sample(pool, picks)))
      ensures !Exploits(draw) && available == [] && r.Success? ==>
                forall p, q :: 0 <= p < q < |r.value| ==> r.value[p] != r.value[q]
      ensures r.Success? ==> |r.value| <= lenList
    {
      if Exploits(draw) {
        var means := Means(rewardCounts[..], actionCounts[..]);
        var ranked := Select(means, available, lenList);
        if available == [] {
          RankedTop(means, lenList);
        } else {
          SelectedShape(means, available, lenList);
        }
        if ranked.None? {
          return Failure(PositionOutOfRange);
        }
        r := Success(ranked.value);
      } else {
        var pool := Pool(available, nActions);
        if lenList > |pool| {
          return Failure(SampleLargerThanPool);
        }
        r := Success(Sample(pool, picks));
      }
    }

    /** `update_params`: stage one observation, and commit the staged trial
        counts when the trial completes a batch. The reward sums are
        staged but never committed. */
    method UpdateParams(action: nat, reward: real)
      requires Valid() && action < nActions
      modifies this`nTrial, actionCounts, actionCountsTemp, rewardCountsTemp
      ensures Valid()
      ensures nTrial == old(nTrial) + 1
      ensures actionCountsTemp[..] == old(actionCountsTemp[..])[action := old(actionCountsTemp[action]) + 1]
      ensures rewardCountsTemp[..] == old(rewardCountsTemp[..])[action := old(rewardCountsTemp[action]) + reward]
      ensures actionCounts[..] == if nTrial % batchSize == 0 then actionCountsTemp[..] else old(actionCounts[..])
    {
      ghost var staged := actionCountsTemp[..];
      StageCount(staged, action);
      CommittedStep(nTrial, batchSize);
      nTrial := nTrial + 1;
      actionCountsTemp[action] := actionCountsTemp[action] + 1;
      assert actionCountsTemp[..] == staged[action := staged[action] + 1];
      assert CountSum(actionCountsTemp[..]) == nTrial;
      rewardCountsTemp[action] := rewardCountsTemp[action] + reward;
      if nTrial % batchSize == 0 {
        ghost var stagedNow := actionCountsTemp[..];
        forall i | 0 <= i < nActions {
          actionCounts[i] := actionCountsTemp[i];
        }
        assert actionCountsTemp[..] == stagedNow;
        assert actionCounts[..] == actionCountsTemp[..];
      }
    }
  }

  /** Staging one trial keeps the counts non-negative and adds one to
      their sum. */
  lemma StageCount(s: seq<int>, a: nat)
    requires a < |s| && NonNegative(s)
    ensures NonNegative(s[a := s[a] + 1])
    ensures CountSum(s[a := s[a] + 1]) == CountSum(s) + 1
  {
    CountSumBump(s, a, 1);
  }

  lemma {:induction false} ZeroCountSum(n: nat)
    ensures CountSum(seq(n, _ => 0)) == 0
  {
    if n > 0 {
      assert seq(n, _ => 0)[..n - 1] == seq(n - 1, _ => 0);
      ZeroCountSum(n - 1);
    }
  }

  /** Construction checks epsilon first (`check_scalar`), in [0, 1]. */
  method NewEpsilonGreedy(nActions: nat, lenList: nat, batchSize: nat, epsilon: real)
    returns (r: Result<EpsilonGreedy, PolicyError>)
    requires nActions >= 1 && lenList >= 1 && batchSize >= 1
    ensures r.Failure? <==> !(0.0 <= epsilon <= 1.0)
    ensures r.Failure? ==> r.error == InvalidEpsilon
    ensures r.Success? ==> fresh(r.value) && r.value.Valid() && r.value.epsilon == epsilon && r.value.nTrial == 0
  {
    if !(0.0 <= epsilon <= 1.0) {
      return Failure(InvalidEpsilon);
    }
    var p := new EpsilonGreedy(nActions, lenList, batchSize, epsilon);
    r := Success(p);
  }

  // ---------------------------------------------------------------------------
  // LinUCB
  // ---------------------------------------------------------------------------

  /** One action's estimator state: a symmetric `d` by `d` matrix that
      inverts the Gram matrix, and a `d`-vector of reward-weighted contexts. */
  predicate Healthy(A: Matrix, G: Matrix, v: Vector, d: nat)
  {
    IsInverse(A, G, d) && Symmetric(A, d) && |v| == d
  }

  /** The identity inverts itself; with a zero reward vector it is the
      estimator state of an action never tried. */
  lemma IdentityHealthy(d: nat)
    ensures Healthy(Identity(d), Identity(d), LinAlg.Zeros(d), d)
  {
    IdentityInverse(d);
    IdentitySymmetric(d);
  }

  /** One observation keeps an action's estimator state healthy: the
      Sherman-Morrison update inverts the Gram matrix plus `x.T @ x`. */
  lemma HealthyAfterUpdate(A: Matrix, G: Matrix, v: Vector, x: Vector, reward: real, d: nat)
    requires Healthy(A, G, v, d) && |x| == d
    requires 1.0 + Quad(A, x) != 0.0
    ensures Healthy(ShermanMorrison(A, x), AddOuter(G, x), Add(v, Scale(reward, x)), d)
  {
    ShermanMorrisonInverse(A, G, x);
    ShermanMorrisonSymmetric(A, x);
  }

  /** Every action's estimator state is healthy. */
  predicate AllHealthy(A: seq<Matrix>, G: seq<Matrix>, v: seq<Vector>, d: nat)
  {
    |A| == |G| == |v| && forall a :: 0 <= a < |A| ==> Healthy(A[a], G[a], v[a], d)
  }

  /** The estimator of `n` untried actions is healthy. */
  lemma FreshHealthy(n: nat, d: nat)
    ensures AllHealthy(seq(n, _ => Identity(d)), seq(n, _ => Identity(d)), seq(n, _ => LinAlg.Zeros(d)), d)
  {
    IdentityHealthy(d);
  }

  /** Replacing one action's state by a healthy one keeps all healthy. */
  lemma HealthyAt(A: seq<Matrix>, G: seq<Matrix>, v: seq<Vector>, d: nat,
                  a: nat, A1: Matrix, G1: Matrix, v1: Vector)
    requires AllHealthy(A, G, v, d) && a < |A|
    requires Healthy(A1, G1, v1, d)
    ensures AllHealthy(A[a := A1], G[a := G1], v[a := v1], d)
  {
  }

  /** Per-action shapes of the committed estimator. */
  predicate Shaped(aInv: seq<Matrix>, b: seq<Vector>, d: nat)
  {
    |aInv| == |b| && forall a :: 0 <= a < |aInv| ==> IsMatrix(aInv[a], d, d) && |b[a]| == d
  }

  /** `theta_hat`, column by column: `A_inv[a] @ b[:, a]`. */
  function Theta(aInv: seq<Matrix>, b: seq<Vector>, d: nat): (theta: seq<Vector>)
    requires Shaped(aInv, b, d)
    ensures |theta| == |aInv|
    ensures forall a :: 0 <= a < |theta| ==> |theta[a]| == d
  {
    seq(|aInv|, a requires 0 <= a < |aInv| => MatVec(aInv[a], b[a]))
  }

  /** The upper confidence bound of each action: `x @ theta_hat[:, a] +
      epsilon * sigma[a]`. */
  function UcbScores(theta: seq<Vector>, x: Vector, epsilon: real, sigma: seq<real>): (s: seq<real>)
    requires |sigma| == |theta|
    requires forall a :: 0 <= a < |theta| ==> |theta[a]| == |x|
    ensures |s| == |theta|
  {
    seq(|theta|, a requires 0 <= a < |theta| => Dot(x, theta[a]) + epsilon * sigma[a])
  }

  /** A fresh array of `n` copies of `v`. */
  method Filled<T>(n: nat, v: T) returns (arr: array<T>)
    ensures fresh(arr) && arr[..] == seq(n, _ => v)
  {
    arr := new T[n](_ => v);
  }

  class LinUCB {
    const dim: nat
    const nActions: nat
    const lenList: nat
    const batchSize: nat
    const epsilon: real

    var nTrial: nat
    const actionCounts: array<int>
    const aInv: array<Matrix>
    const aInvTemp: array<Matrix>
    const b: array<Vector>          // b[a] is column `a` of numpy's `b`
    const bTemp: array<Vector>
    var thetaHat: seq<Vector>       // thetaHat[a] is column `a` of numpy's `theta_hat`

    /** The Gram matrices `I + sum of x.T @ x` that the committed and the
        staged matrices invert. */
    ghost var gram: seq<Matrix>
    ghost var gramTemp: seq<Matrix>

    ghost const Repr: set<object>

    ghost predicate Valid()
      reads this, Repr
    {
      && Repr == {this, actionCounts, aInv, aInvTemp, b, bTemp}
      && dim >= 1 && nActions >= 1 && lenList >= 1 && batchSize >= 1 && epsilon >= 0.0
      && actionCounts.Length == nActions
      && aInv.Length == nActions && aInvTemp.Length == nActions
      && b.Length == nActions && bTemp.Length == nActions
      && aInv != aInvTemp && b != bTemp
      && |gram| == nActions && |gramTemp| == nActions
      && AllHealthy(aInv[..], gram, b[..], dim)
      && AllHealthy(aInvTemp[..], gramTemp, bTemp[..], dim)
      && |thetaHat| == nActions && (forall a :: 0 <= a < nActions ==> |thetaHat[a]| == dim)
      && NonNegative(actionCounts[..])
      && CountSum(actionCounts[..]) == nTrial
    }

    /** `BaseLinPolicy.__post_init__` after the base class has zeroed the
        counters: every inverse is the identity, every reward vector zero. */
    constructor (dim: nat, nActions: nat, lenList: nat, batchSize: nat, epsilon: real)
      requires dim >= 1 && nActions >= 1 && lenList >= 1 && batchSize >= 1
      requires epsilon >= 0.0
      ensures Valid() && fresh(Repr)
      ensures this.dim == dim && this.nActions == nActions && this.lenList == lenList
      ensures this.batchSize == batchSize && this.epsilon == epsilon
      ensures nTrial == 0
      ensures aInv[..] == seq(nActions, _ => Identity(dim)) && aInvTemp[..] == seq(nActions, _ => Identity(dim))
      ensures b[..] == seq(nActions, _ => LinAlg.Zeros(dim)) && bTemp[..] == seq(nActions, _ => LinAlg.Zeros(dim))
      ensures thetaHat == seq(nActions, _ => LinAlg.Zeros(dim))
      ensures actionCounts[..] == seq(nActions, _ => 0)
    {
      this.dim := dim;
      this.nActions := nActions;
      this.lenList := lenList;
      this.batchSize := batchSize;
      this.epsilon := epsilon;
      nTrial := 0;
      var counts := Filled(nActions, 0);
      var ai := Filled(nActions, Identity(dim));
      var ait := Filled(nActions, Identity(dim));
      var bb := Filled(nActions, LinAlg.Zeros(dim));
      var bt := Filled(nActions, LinAlg.Zeros(dim));
      actionCounts, aInv, aInvTemp, b, bTemp := counts, ai, ait, bb, bt;
      thetaHat := seq(nActions, _ => LinAlg.Zeros(dim));
      gram := seq(nActions, _ => Identity(dim));
      gramTemp := seq(nActions, _ => Identity(dim));
      Repr := {this, counts, ai, ait, bb, bt};
      new;
      FreshHealthy(nActions, dim);
      ZeroCountSum(nActions);

    }

    /** `update_params`: count the action, fold the context into the staged
        inverse (Sherman-Morrison) and the staged reward vector, and commit
        both when the trial completes a batch. `x` is the context's one row. */
    method UpdateParams(action: nat, reward: real, x: Vector)
      requires Valid() && action < nActions && |x| == dim
      requires 1.0 + Quad(aInvTemp[action], x) != 0.0
      modifies this`nTrial, this`gram, this`gramTemp, actionCounts, aInv, aInvTemp, b, bTemp
      ensures Valid()
      ensures nTrial == old(nTrial) + 1
      ensures actionCounts[..] == old(actionCounts[..])[action := old(actionCounts[action]) + 1]
      ensures aInvTemp[..] == old(aInvTemp[..])[action := ShermanMorrison(old(aInvTemp[action]), x)]
      ensures bTemp[..] == old(bTemp[..])[action := Add(old(bTemp[action]), Scale(reward, x))]
      ensures gramTemp == old(gramTemp)[action := AddOuter(old(gramTemp[action]), x)]
      ensures nTrial % batchSize == 0 ==> aInv[..] == aInvTemp[..] && b[..] == bTemp[..] && gram == gramTemp
      ensures nTrial % batchSize != 0 ==> aInv[..] == old(aInv[..]) && b[..] == old(b[..]) && gram == old(gram)
    {
      Stage(action, reward, x);
      if nTrial % batchSize == 0 {
        Commit();
      }
    }

    /** The staging half of `update_params`. */
    method Stage(action: nat, reward: real, x: Vector)
      requires Valid() && action < nActions && |x| == dim
      requires 1.0 + Quad(aInvTemp[action], x) != 0.0
      modifies this`nTrial, this`gramTemp, actionCounts, aInvTemp, bTemp
      ensures Valid()
      ensures nTrial == old(nTrial) + 1
      ensures actionCounts[..] == old(actionCounts[..])[action := old(actionCounts[action]) + 1]
      ensures aInvTemp[..] == old(aInvTemp[..])[action := ShermanMorrison(old(aInvTemp[action]), x)]
      ensures bTemp[..] == old(bTemp[..])[action := Add(old(bTemp[action]), Scale(reward, x))]
      ensures gramTemp == old(gramTemp)[action := AddOuter(old(gramTemp[action]), x)]
    {
      ghost var counts := actionCounts[..];
      ghost var A, G, v := aInvTemp[..], gramTemp, bTemp[..];
      StageCount(counts, action);
      HealthyAfterUpdate(A[action], G[action], v[action], x, reward, dim);
      HealthyAt(A, G, v, dim, action, ShermanMorrison(A[action], x), AddOuter(G[action], x), Add(v[action], Scale(reward, x)));
      nTrial := nTrial + 1;
      actionCounts[action] := actionCounts[action] + 1;
      assert actionCounts[..] == counts[action := counts[action] + 1];
      aInvTemp[action] := ShermanMorrison(aInvTemp[action], x);
      gramTemp := gramTemp[action := AddOuter(gramTemp[action], x)];
      bTemp[action] := Add(bTemp[action], Scale(reward, x));
      assert aInvTemp[..] == A[action := ShermanMorrison(A[action], x)];
      assert bTemp[..] == v[action := Add(v[action], Scale(reward, x))];
    }

    /** The commit half of `update_params`: the live estimator becomes a
        copy of the staged one. */
    method Commit()
      requires Valid()
      modifies this`gram, aInv, b
      ensures Valid()
      ensures aInv[..] == aInvTemp[..] && b[..] == bTemp[..] && gram == gramTemp
    {
      ghost var counts := actionCounts[..];
      forall a | 0 <= a < nActions {
        aInv[a] := aInvTemp[a];
      }
      forall a | 0 <= a < nActions {
        b[a] := bTemp[a];
      }
      gram := gramTemp;
      assert actionCounts[..] == counts;
    }

    /** `select_action`: refresh `theta_hat` from the committed estimator,
        then rank the actions by upper confidence bound. `sigma[a]` is the
        confidence width `sqrt(x @ A_inv[a] @ x.T)`, given. */
    method SelectAction(context: Matrix, sigma: seq<real>, available: seq<int>)
      returns (r: Result<seq<nat>, PolicyError>)
      requires Valid() && |sigma| == nActions
      modifies this`thetaHat
      ensures Valid()
      ensures |context| != 1 ==> r == Failure(ContextNotOneRow) && thetaHat == old(thetaHat)
      ensures |context| == 1 ==> thetaHat == Theta(aInv[..], b[..], dim)
      ensures |context| == 1 && |context[0]| != dim ==> r == Failure(ContextWidthMismatch)
      ensures |context| == 1 && |context[0]| == dim ==>
                var scores := UcbScores(thetaHat, context[0], epsilon, sigma);
                && (r.Success? <==> Select(scores, available, lenList).Some?)
                && (r.Success? ==> r.value == Select(scores, available, lenList).value)
      ensures r.Success? && available == [] ==>
                var scores := UcbScores(thetaHat, context[0], epsilon, sigma);
                && |r.value| == Min(lenList, nActions)
                && InRange(r.value, nActions) && Distinct(r.value)
                && Descending(scores, r.value)
                && (forall x, p :: 0 <= x < nActions && x !in r.value && 0 <= p < |r.value| ==>
                      scores[x] <= scores[r.value[p]])
    {
      if |context| != 1 {
        return Failure(ContextNotOneRow);
      }
      assert Shaped(aInv[..], b[..], dim);
      thetaHat := Theta(aInv[..], b[..], dim);
      if |context[0]| != dim {
        return Failure(ContextWidthMismatch);
      }
      var scores := UcbScores(thetaHat, context[0], epsilon, sigma);
      RankedTop(scores, lenList);
      var ranked := Select(scores, available, lenList);
      if ranked.None? {
        return Failure(PositionOutOfRange);
      }
      r := Success(ranked.value);
    }
  }

  /** Construction checks epsilon first (`check_scalar`), at least 0. */
  method NewLinUCB(dim: nat, nActions: nat, lenList: nat, batchSize: nat, epsilon: real)
    returns (r: Result<LinUCB, PolicyError>)
    requires dim >= 1 && nActions >= 1 && lenList >= 1 && batchSize >= 1
    ensures r.Failure? <==> epsilon < 0.0
    ensures r.Failure? ==> r.error == InvalidEpsilon
    ensures r.Success? ==> fresh(r.value) && r.value.Valid() && r.value.epsilon == epsilon && r.value.nTrial == 0
  {
    if epsilon < 0.0 {
      return Failure(InvalidEpsilon);
    }
    var p := new LinUCB(dim, nActions, lenList, batchSize, epsilon);
    r := Success(p);
  }

  // ---------------------------------------------------------------------------
  // FairLinUCB
  // ---------------------------------------------------------------------------

  /** numpy broadcasting of two one-dimensional arrays: equal lengths, or
      one of them of length 1. */
  predicate Broadcasts(m: nat, n: nat)
  {
    m == n || m == 1 || n == 1
  }

  function BroadcastLength(m: nat, n: nat): nat
  {
    if m == n then m else if m == 1 then n else m
  }

  /** `fairness_weight * (sum(action_counts) - 1) - action_counts`: how far
      each action lies below its target share of the trials. */
  function Deficits(weights: seq<real>, counts: seq<int>): (r: Option<seq<real>>)
    ensures r.Some? <==> Broadcasts(|weights|, |counts|)
    ensures r.Some? ==> |r.value| == BroadcastLength(|weights|, |counts|)
  {
    if !Broadcasts(|weights|, |counts|) then None
    else
      var total := (CountSum(counts) - 1) as real;
      Some(seq(BroadcastLength(|weights|, |counts|), i requires 0 <= i < BroadcastLength(|weights|, |counts|) =>
        weights[if |weights| == 1 then 0 else i] * total - (counts[if |counts| == 1 then 0 else i] as real)))
  }

  /** `fair[~(fair < alpha)]`: the deficits not below `alpha`, in order. */
  function Kept(deficits: seq<real>, alpha: real): (r: seq<real>)
    ensures |r| <= |deficits|
    ensures forall p :: 0 <= p < |r| ==> r[p] >= alpha
  {
    if deficits == [] then []
    else
      var n := |deficits| - 1;
      Kept(deficits[..n], alpha) + (if deficits[n] >= alpha then [deficits[n]] else [])
  }

  /** The action of each entry of `Kept`. */
  function KeptActions(deficits: seq<real>, alpha: real): (r: seq<nat>)
    ensures |r| == |Kept(deficits, alpha)|
    ensures InRange(r, |deficits|)
  {
    if deficits == [] then []
    else
      var n := |deficits| - 1;
      KeptActions(deficits[..n], alpha) + (if deficits[n] >= alpha then [n] else [])
  }

  /** `np.argmax`: the first position of a largest entry. */
  function ArgMax(s: seq<real>): (m: nat)
    requires s != []
    ensures m < |s|
    ensures forall j :: 0 <= j < |s| ==> s[j] <= s[m]
    ensures forall j :: 0 <= j < m ==> s[j] < s[m]
  {
    if |s| == 1 then 0
    else
      var n := |s| - 1;
      var m := ArgMax(s[..n]);
      if s[n] > s[m] then n else m
  }

  /** `calculate_score_fairness`. */
  function ScoreFairness(weights: seq<real>, counts: seq<int>, alpha: real): Option<seq<real>>
  {
    var d := Deficits(weights, counts);
    if d.None? then None else Some(Kept(d.value, alpha))
  }

  /** The forced action as written: `np.argmax` of the filtered deficits,
      a position in the filtered array rather than an action. */
  function ForcedActionAsWritten(deficits: seq<real>, alpha: real): nat
    requires Kept(deficits, alpha) != []
  {
    ArgMax(Kept(deficits, alpha))
  }

  /** The forced action: the action behind the largest deficit not below
      `alpha`. */
  function ForcedAction(deficits: seq<real>, alpha: real): (a: nat)
    requires Kept(deficits, alpha) != []
    ensures a < |deficits|
  {
    KeptActions(deficits, alpha)[ArgMax(Kept(deficits, alpha))]
  }

  /** Each kept entry is the deficit of its action. */
  lemma {:induction false} KeptValues(deficits: seq<real>, alpha: real)
    ensures forall p :: 0 <= p < |Kept(deficits, alpha)| ==>
              Kept(deficits, alpha)[p] == deficits[KeptActions(deficits, alpha)[p]]
  {
    if deficits != [] {
      var n := |deficits| - 1;
      KeptValues(deficits[..n], alpha);
    }
  }

  /** The kept actions increase strictly. */
  lemma {:induction false} KeptAscending(deficits: seq<real>, alpha: real)
    ensures forall p, q :: 0 <= p < q < |KeptActions(deficits, alpha)| ==>
              KeptActions(deficits, alpha)[p] < KeptActions(deficits, alpha)[q]
  {
    if deficits != [] {
      var n := |deficits| - 1;
      KeptAscending(deficits[..n], alpha);
    }
  }

  /** Every action whose deficit is not below `alpha` is kept. */
  lemma {:induction false} KeptComplete(deficits: seq<real>, alpha: real)
    ensures forall i :: 0 <= i < |deficits| && deficits[i] >= alpha ==> i in KeptActions(deficits, alpha)
  {
    if deficits != [] {
      var n := |deficits| - 1;
      KeptComplete(deficits[..n], alpha);
    }
  }

  /** The forced action has a deficit not below `alpha`, no action has a
      larger deficit, and every action before it has a smaller one. */
  lemma ForcedActionSpec(deficits: seq<real>, alpha: real)
    requires Kept(deficits, alpha) != []
    ensures var a := ForcedAction(deficits, alpha);
            && deficits[a] >= alpha
            && (forall j :: 0 <= j < |deficits| ==> deficits[j] <= deficits[a])
            && (forall j :: 0 <= j < a ==> deficits[j] < deficits[a])
  {
    var kept := Kept(deficits, alpha);
    var acts := KeptActions(deficits, alpha);
    var p := ArgMax(kept);
    var a := acts[p];
    KeptValues(deficits, alpha);
    KeptAscending(deficits, alpha);
    KeptComplete(deficits, alpha);
    forall j | 0 <= j < |deficits|
      ensures deficits[j] <= deficits[a]
      ensures j < a ==> deficits[j] < deficits[a]
    {
      if deficits[j] >= alpha {
        var q :| 0 <= q < |acts| && acts[q] == j;
        assert kept[q] == deficits[j];
        if j < a {
          assert q < p;
        }
      }
    }
  }

  class FairLinUCB {
    const base: LinUCB
    const fairnessWeight: seq<real>
    const alpha: real

    ghost predicate Valid()
      reads this, base, base.Repr
    {
      base.Valid()
    }

    /** `__post_init__`: the LinUCB initialisation, plus the fairness
        weights and threshold. */
    constructor (dim: nat, nActions: nat, lenList: nat, batchSize: nat, epsilon: real,
                 fairnessWeight: seq<real>, alpha: real)
      requires dim >= 1 && nActions >= 1 && lenList >= 1 && batchSize >= 1
      requires epsilon >= 0.0
      ensures Valid() && fresh(base) && fresh(base.Repr)
      ensures base.dim == dim && base.nActions == nActions && base.lenList == lenList
      ensures base.epsilon == epsilon && base.nTrial == 0
      ensures this.fairnessWeight == fairnessWeight && this.alpha == alpha
    {
      base := new LinUCB(dim, nActions, lenList, batchSize, epsilon);
      this.fairnessWeight := fairnessWeight;
      this.alpha := alpha;
    }

    /** `select_action`: when some action's deficit is not below `alpha`,
        exactly that action with the largest deficit; otherwise the LinUCB
        ranking over all actions, whatever `available` says. */
    method SelectAction(context: Matrix, sigma: seq<real>, available: seq<int>)
      returns (r: Result<seq<nat>, PolicyError>)
      requires Valid() && |sigma| == base.nActions
      modifies base`thetaHat
      ensures Valid()
      ensures |context| != 1 ==> r == Failure(ContextNotOneRow)
      ensures var counts := old(base.actionCounts[..]);
              |context| == 1 && !Broadcasts(|fairnessWeight|, |counts|) ==> r == Failure(WeightShapeMismatch)
      ensures var d := Deficits(fairnessWeight, old(base.actionCounts[..]));
              |context| == 1 && d.Some? && Kept(d.value, alpha) != [] ==>
                && r == Success([ForcedAction(d.value, alpha)])
                && base.thetaHat == old(base.thetaHat)
                && d.value[r.value[0]] >= alpha
                && (forall j :: 0 <= j < |d.value| ==> d.value[j] <= d.value[r.value[0]])
      ensures var d := Deficits(fairnessWeight, old(base.actionCounts[..]));
              |context| == 1 && d.Some? && Kept(d.value, alpha) == [] ==>
                && base.thetaHat == Theta(base.aInv[..], base.b[..], base.dim)
                && (|context[0]| != base.dim ==> r == Failure(ContextWidthMismatch))
                && (|context[0]| == base.dim ==>
                      r.Success? && r.value == Top(ArgSort(UcbScores(base.thetaHat, context[0], base.epsilon, sigma)), base.lenList))
    {
      if |context| != 1 {
        return Failure(ContextNotOneRow);
      }
      var fair := ScoreFairness(fairnessWeight, base.actionCounts[..], alpha);
      if fair.None? {
        return Failure(WeightShapeMismatch);
      }
      if fair.value != [] {
        var d := Deficits(fairnessWeight, base.actionCounts[..]).value;
        ForcedActionSpec(d, alpha);
        return Success([ForcedAction(d, alpha)]);
      }
      r := base.SelectAction(context, sigma, []);
    }
  }

  /** Construction checks epsilon first (`check_scalar`), at least 0. */
  method NewFairLinUCB(dim: nat, nActions: nat, lenList: nat, batchSize: nat, epsilon: real,
                       fairnessWeight: seq<real>, alpha: real)
    returns (r: Result<FairLinUCB, PolicyError>)
    requires dim >= 1 && nActions >= 1 && lenList >= 1 && batchSize >= 1
    ensures r.Failure? <==> epsilon < 0.0
    ensures r.Failure? ==> r.error == InvalidEpsilon
    ensures r.Success? ==> fresh(r.value) && r.value.Valid() && r.value.base.epsilon == epsilon
                           && r.value.base.nTrial == 0
                           && r.value.fairnessWeight == fairnessWeight && r.value.alpha == alpha
  {
    if epsilon < 0.0 {
      return Failure(InvalidEpsilon);
    }
    var p := new FairLinUCB(dim, nActions, lenList, batchSize, epsilon, fairnessWeight, alpha);
    r := Success(p);
  }

  // ---------------------------------------------------------------------------
  // Worked scenarios
  // ---------------------------------------------------------------------------

  /** Two actions with weights [0.5, 0.5] after three trials of action 0:
      the deficits are [-2, 1], only action 1 is at or above alpha = 0, yet
      the argmax of the filtered array, 0, names action 0. The corrected
      choice is action 1. */
  lemma FilteredArgMaxNamesWrongAction()
    ensures Deficits([0.5, 0.5], [3, 0]) == Some([-2.0, 1.0])
    ensures Kept([-2.0, 1.0], 0.0) == [1.0]
    ensures ForcedActionAsWritten([-2.0, 1.0], 0.0) == 0
    ensures [-2.0, 1.0][ForcedActionAsWritten([-2.0, 1.0], 0.0)] < 0.0
    ensures ForcedAction([-2.0, 1.0], 0.0) == 1
  {
    assert CountSum([3, 0]) == 3 by {
      assert [3, 0][..1] == [3];
      assert [3][..0] == [];
    }
    var d := Deficits([0.5, 0.5], [3, 0]);
    assert d.value[0] == -2.0 && d.value[1] == 1.0;
    assert d.value == [-2.0, 1.0];
    assert [-2.0, 1.0][..1] == [-2.0];
    assert [-2.0][..0] == [];
  }

  /** One update of a one-dimensional LinUCB arm from the identity with
      context [1] and reward 1: the inverse becomes [[0.5]], the reward
      vector [1], and the estimate x @ theta is 0.5. */
  lemma OneUpdateScenario()
    ensures Quad(Identity(1), [1.0]) == 1.0
    ensures ShermanMorrison(Identity(1), [1.0]) == [[0.5]]
    ensures Add(LinAlg.Zeros(1), Scale(1.0, [1.0])) == [1.0]
    ensures Dot([1.0], MatVec([[0.5]], [1.0])) == 0.5
  {
    assert Unit(1, 0) == [1.0];
    assert Identity(1)[0] == Unit(1, 0);
    assert Identity(1) == [[1.0]];
    assert MatVec([[1.0]], [1.0]) == [1.0];
    assert Col([[1.0]], 0) == [1.0];
    assert VecMat([1.0], [[1.0]], 1) == [1.0];
    assert MatVec([[0.5]], [1.0]) == [0.5];
    var M := ShermanMorrison([[1.0]], [1.0]);
    assert Scale(1.0 / 2.0, [1.0]) == [0.5];
    assert Sub([1.0], [0.5]) == [0.5];
    assert M[0] == [0.5];
  }
}
