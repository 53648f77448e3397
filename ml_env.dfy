/** The offline recommendation environments: an episodic state machine over
    one user's logged history. The four environment classes of the source
    (`OfflineEnv`, `OfflineFairEnv`, `SimulatedEnv`, `SimulatedFairEnv`) share
    their state and `reset` and differ only in how `step` scores an action
    and when it stops, so they are one class here with a `variant`. */
module RecEnv {
  import opened Common
  import opened History

  datatype Variant = Offline | OfflineFair | Simulated | SimulatedFair

  /** The fair variants shape positive rewards and stop on the size of the
      recommended set. */
  predicate IsFair(v: Variant)
  {
    v == OfflineFair || v == SimulatedFair
  }

  /** The simulated variants score every new action with the reward model,
      logged or not. */
  predicate IsSimulated(v: Variant)
  {
    v == Simulated || v == SimulatedFair
  }

  /** The optional learned reward model, `reward_model.predict(user, item)`. */
  datatype RewardModel = NoModel | Model(predict: (int, int) -> real)

  /** Everything `step` reads but never changes during an episode. */
  datatype Setting = Setting(
    variant: Variant,
    model: RewardModel,
    user: int,
    userItems: map<int, int>,
    movieGroups: map<int, int>,
    fairness: seq<real>,
    nGroups: nat)

  predicate WellFormed(s: Setting)
  {
    && (forall a :: a in s.movieGroups ==> 1 <= s.movieGroups[a] <= s.nGroups)
    && (IsSimulated(s.variant) ==> s.model.Model?)
    && (IsFair(s.variant) ==>
          |s.fairness| == s.nGroups && NonNegativeWeights(s.fairness) && WeightSum(s.fairness) > 0.0)
  }

  /** `movie_groups[item]`: the group of an item, a number in 1..nGroups. */
  function GroupOf(s: Setting, a: int): (g: nat)
    requires WellFormed(s) && a in s.movieGroups
    ensures 1 <= g <= s.nGroups
  {
    s.movieGroups[a]
  }

  // ---------------------------------------------------------------------------
  // Scoring one action
  // ---------------------------------------------------------------------------

  /** `get_reward`: with a reward model the logged rating is rescaled to
      `0.5 * (rating - 3)`, otherwise it is +1 for a rating of 4 or more and
      -1 below. */
  function GetReward(hasModel: bool, rating: int): real
  {
    if hasModel then 0.5 * ((rating - 3) as real)
    else if rating >= 4 then 1.0 else -1.0
  }

  /** Both reward scales agree on which ratings are positive: exactly the
      ratings of 4 and above. */
  lemma GetRewardSign(rating: int)
    ensures GetReward(true, rating) > 0.0 <==> rating >= 4
    ensures GetReward(false, rating) > 0.0 <==> rating >= 4
    ensures GetReward(true, rating) > 0.0 <==> GetReward(false, rating) > 0.0
  {
  }

  /** Which branch of `step` an action falls into. */
  datatype Verdict =
    | Logged(rating: int)    // logged for the user and not yet recommended
    | Predicted(score: real) // not yet recommended, scored by the reward model
    | Unscored               // not logged, not yet recommended, no reward model
    | Repeated               // already recommended in this episode

  function Judge(s: Setting, recommended: set<int>, a: int): Verdict
    requires IsSimulated(s.variant) ==> s.model.Model?
  {
    if a in recommended then Repeated
    else if IsSimulated(s.variant) then Predicted(s.model.predict(s.user, a))
    else if a in s.userItems then Logged(s.userItems[a])
    else if s.model.Model? then Predicted(s.model.predict(s.user, a))
    else Unscored
  }

  /** The raw reward of a verdict, before any fairness shaping. */
  function RawValue(s: Setting, v: Verdict): real
  {
    match v
    case Logged(rating) => GetReward(s.model.Model?, rating)
    case Predicted(score) => score
    case Unscored => 0.0
    case Repeated => -1.0
  }

  /** An action is a hit (enters the window) when its raw reward is positive. */
  predicate IsHit(s: Setting, v: Verdict)
  {
    RawValue(s, v) > 0.0
  }

  /** The fairness-shaped reward of a hit in group `g`, read after the
      group's counter has been incremented: target share minus observed
      share, plus one. */
  function Shaped(fairness: seq<real>, counts: seq<nat>, g: nat): real
    requires 1 <= g <= |counts| == |fairness|
    requires WeightSum(fairness) > 0.0 && counts[g - 1] > 0
  {
    CountSumBound(counts, g - 1);
    fairness[g - 1] / WeightSum(fairness) - (counts[g - 1] as real) / (CountSum(counts) as real) + 1.0
  }

  /** Non-negative weights make the shaped reward lie in [0, 2), and it is
      above 1 exactly when the group's observed share is below its target. */
  lemma ShapedBounds(fairness: seq<real>, counts: seq<nat>, g: nat)
    requires 1 <= g <= |counts| == |fairness|
    requires NonNegativeWeights(fairness) && WeightSum(fairness) > 0.0
    requires counts[g - 1] > 0
    ensures CountSum(counts) > 0
    ensures 0.0 <= Shaped(fairness, counts, g) < 2.0
    ensures Shaped(fairness, counts, g) > 1.0
            <==> (counts[g - 1] as real) / (CountSum(counts) as real) < fairness[g - 1] / WeightSum(fairness)
  {
    CountSumBound(counts, g - 1);
    WeightSumBound(fairness, g - 1);
    var target := fairness[g - 1] / WeightSum(fairness);
    var observed := (counts[g - 1] as real) / (CountSum(counts) as real);
    assert 0.0 <= target <= 1.0 by {
      DivBounds(fairness[g - 1], WeightSum(fairness));
    }
    assert 0.0 < observed <= 1.0 by {
      DivBounds(counts[g - 1] as real, CountSum(counts) as real);
    }
  }

  lemma DivBounds(x: real, y: real)
    requires 0.0 <= x <= y && y > 0.0
    ensures 0.0 <= x / y <= 1.0
    ensures x > 0.0 ==> x / y > 0.0
  {
  }

  /** The reward `step` reports for an action with verdict `v` in group `g`,
      `counts` being the group counters after this action's increment. */
  function Reward(s: Setting, counts: seq<nat>, g: nat, v: Verdict): real
    requires WellFormed(s) && |counts| == s.nGroups
    requires 1 <= g <= s.nGroups && counts[g - 1] > 0
  {
    if !IsFair(s.variant) then RawValue(s, v)
    else if IsHit(s, v) then Shaped(s.fairness, counts, g)
    else if v.Unscored? then 0.0
    else -1.0
  }

  /** The reward rules, in the source's priority order: an action already
      recommended costs -1 in every variant; otherwise, offline, a logged
      action earns `get_reward` of its rating and an unlogged one the model's
      prediction or 0; a fair variant replaces a positive raw reward by the
      shaped one and any other by -1, except that an unscored action stays 0. */
  lemma RewardRules(s: Setting, recommended: set<int>, counts: seq<nat>, g: nat, a: int)
    requires WellFormed(s) && |counts| == s.nGroups
    requires 1 <= g <= s.nGroups && counts[g - 1] > 0
    ensures var r := Reward(s, counts, g, Judge(s, recommended, a));
      && (a in recommended ==> r == -1.0)
      && (a !in recommended && !IsSimulated(s.variant) && !IsFair(s.variant) ==>
            r == if a in s.userItems then GetReward(s.model.Model?, s.userItems[a])
                 else if s.model.Model? then s.model.predict(s.user, a) else 0.0)
      && (a !in recommended && IsSimulated(s.variant) && !IsFair(s.variant) ==>
            r == s.model.predict(s.user, a))
      && (IsFair(s.variant) ==>
            var raw := RawValue(s, Judge(s, recommended, a));
            r == if raw > 0.0 then Shaped(s.fairness, counts, g)
                 else if Judge(s, recommended, a).Unscored? then 0.0 else -1.0)
  {
    if IsFair(s.variant) {
      CountSumBound(counts, g - 1);
    }
  }

  /** A positive reported reward always comes from a hit; without fairness
      shaping the converse holds too. */
  lemma PositiveRewardIsHit(s: Setting, counts: seq<nat>, g: nat, v: Verdict)
    requires WellFormed(s) && |counts| == s.nGroups
    requires 1 <= g <= s.nGroups && counts[g - 1] > 0
    ensures Reward(s, counts, g, v) > 0.0 ==> IsHit(s, v)
    ensures !IsFair(s.variant) ==> (Reward(s, counts, g, v) > 0.0 <==> IsHit(s, v))
  {
  }

  // ---------------------------------------------------------------------------
  // The batch loop as a fold
  // ---------------------------------------------------------------------------

  /** What the batch loop has built so far: the episode's recommended set,
      group counters and total, and the loop's `rewards` and
      `correctly_recommended` lists. */
  datatype Tally = Tally(
    recommended: set<int>,
    groupCount: seq<nat>,
    total: nat,
    rewards: seq<real>,
    hits: seq<int>)

  /** One iteration of the batch loop over action `a`. */
  function Visit(s: Setting, t: Tally, a: int): (t': Tally)
    requires WellFormed(s) && |t.groupCount| == s.nGroups && a in s.movieGroups
    ensures |t'.groupCount| == s.nGroups && |t'.rewards| == |t.rewards| + 1
  {
    var g := GroupOf(s, a);
    var counts := t.groupCount[g - 1 := t.groupCount[g - 1] + 1];
    var v := Judge(s, t.recommended, a);
    Tally(
      t.recommended + {a},
      counts,
      t.total + 1,
      t.rewards + [Reward(s, counts, g, v)],
      if IsHit(s, v) then t.hits + [a] else t.hits)
  }

  /** The batch loop over `acts`, left to right, starting from `t`. */
  function Replay(s: Setting, t: Tally, acts: seq<int>): (t': Tally)
    requires WellFormed(s) && |t.groupCount| == s.nGroups
    requires forall k :: 0 <= k < |acts| ==> acts[k] in s.movieGroups
    ensures |t'.groupCount| == s.nGroups && |t'.rewards| == |t.rewards| + |acts|
    decreases |acts|
  {
    if acts == [] then t
    else
      var n := |acts| - 1;
      Visit(s, Replay(s, t, acts[..n]), acts[n])
  }

  /** One iteration adds one to the total and to the sum of the group
      counters, appends one reward and at most one hit. */
  lemma VisitCounters(s: Setting, t: Tally, a: int)
    requires WellFormed(s) && |t.groupCount| == s.nGroups && a in s.movieGroups
    ensures Visit(s, t, a).total == t.total + 1
    ensures CountSum(Visit(s, t, a).groupCount) == CountSum(t.groupCount) + 1
    ensures Visit(s, t, a).rewards[..|t.rewards|] == t.rewards
    ensures |Visit(s, t, a).hits| <= |t.hits| + 1
  {
    CountSumBump(t.groupCount, GroupOf(s, a) - 1, 1);
  }

  /** A batch of `k` actions adds `k` to the total and `k` to the sum of the
      group counters, appends one reward per action to the reward list and
      at most one hit per action to the hit list. */
  lemma {:induction false} ReplayCounters(s: Setting, t: Tally, acts: seq<int>)
    requires WellFormed(s) && |t.groupCount| == s.nGroups
    requires forall k :: 0 <= k < |acts| ==> acts[k] in s.movieGroups
    ensures Replay(s, t, acts).total == t.total + |acts|
    ensures CountSum(Replay(s, t, acts).groupCount) == CountSum(t.groupCount) + |acts|
    ensures Replay(s, t, acts).rewards[..|t.rewards|] == t.rewards
    ensures |Replay(s, t, acts).hits| <= |t.hits| + |acts|
    decreases |acts|
  {
    if acts != [] {
      var n := |acts| - 1;
      var mid := Replay(s, t, acts[..n]);
      ReplayCounters(s, t, acts[..n]);
      VisitCounters(s, mid, acts[n]);
      var r := Replay(s, t, acts).rewards;
      assert r[..|t.rewards|] == r[..|mid.rewards|][..|t.rewards|];
    }
  }

  /** The recommended set after a batch is the set before it plus the
      batch's actions, and nothing else. */
  lemma {:induction false} ReplayRecommended(s: Setting, t: Tally, acts: seq<int>, a: int)
    requires WellFormed(s) && |t.groupCount| == s.nGroups
    requires forall k :: 0 <= k < |acts| ==> acts[k] in s.movieGroups
    ensures a in Replay(s, t, acts).recommended <==>
            a in t.recommended || exists k :: 0 <= k < |acts| && acts[k] == a
    decreases |acts|
  {
    if acts != [] {
      var n := |acts| - 1;
      ReplayRecommended(s, t, acts[..n], a);
      if exists k :: 0 <= k < n && acts[..n][k] == a {
        var k :| 0 <= k < n && acts[..n][k] == a;
        assert acts[k] == a;
      }
      if exists k :: 0 <= k < |acts| && acts[k] == a {
        var k :| 0 <= k < |acts| && acts[k] == a;
        if k < n {
          assert acts[..n][k] == a;
        }
      }
    }
  }

  /** Entry `j` of the batch's rewards is the reward of action `j`, judged
      against what the first `j` actions left behind. */
  lemma {:induction false} ReplayRewardAt(s: Setting, t: Tally, acts: seq<int>, j: nat)
    requires WellFormed(s) && |t.groupCount| == s.nGroups && t.rewards == []
    requires forall k :: 0 <= k < |acts| ==> acts[k] in s.movieGroups
    requires j < |acts|
    ensures |Replay(s, t, acts).rewards| == |acts|
    ensures Replay(s, t, acts).rewards[j] == Replay(s, t, acts[..j + 1]).rewards[j]
    decreases |acts|
  {
    ReplayCounters(s, t, acts);
    var n := |acts| - 1;
    if j < n {
      ReplayRewardAt(s, t, acts[..n], j);
      assert acts[..n][..j + 1] == acts[..j + 1];
      ReplayCounters(s, t, acts[..n]);
    } else {
      assert acts[..j + 1] == acts;
    }
  }

  /** A repeated action inside one batch is penalised with -1: the earlier
      occurrence has already been added to the recommended set. */
  lemma RepeatInBatchPenalised(s: Setting, t: Tally, acts: seq<int>, i: nat, j: nat)
    requires WellFormed(s) && |t.groupCount| == s.nGroups && t.rewards == []
    requires forall k :: 0 <= k < |acts| ==> acts[k] in s.movieGroups
    requires i < j < |acts| && acts[i] == acts[j]
    ensures |Replay(s, t, acts).rewards| == |acts|
    ensures Replay(s, t, acts).rewards[j] == -1.0
  {
    ReplayRewardAt(s, t, acts, j);
    var prefix := acts[..j + 1];
    assert prefix[..j] == acts[..j];
    ReplayCounters(s, t, acts[..j]);
    ReplayRecommends(s, t, acts[..j], i);
  }

  /** Every action of a batch is in the recommended set afterwards. */
  lemma {:induction false} ReplayRecommends(s: Setting, t: Tally, acts: seq<int>, i: nat)
    requires WellFormed(s) && |t.groupCount| == s.nGroups
    requires forall k :: 0 <= k < |acts| ==> acts[k] in s.movieGroups
    requires i < |acts|
    ensures acts[i] in Replay(s, t, acts).recommended
    decreases |acts|
  {
    var n := |acts| - 1;
    if i < n {
      ReplayRecommends(s, t, acts[..n], i);
    }
  }

  /** The window of a batch moves only when the batch has hits: a positive
      reward in the list implies a non-empty `correctly_recommended`; without
      fairness shaping the converse holds too. */
  lemma {:induction false} ReplayPositiveMeansHits(s: Setting, t: Tally, acts: seq<int>)
    requires WellFormed(s) && |t.groupCount| == s.nGroups && t.rewards == [] && t.hits == []
    requires forall k :: 0 <= k < |acts| ==> acts[k] in s.movieGroups
    requires forall k :: 0 <= k < |t.groupCount| ==> t.groupCount[k] >= 0
    ensures var t' := Replay(s, t, acts);
      && ((exists k :: 0 <= k < |t'.rewards| && t'.rewards[k] > 0.0) ==> t'.hits != [])
      && (!IsFair(s.variant) ==> (t'.hits != [] ==> exists k :: 0 <= k < |t'.rewards| && t'.rewards[k] > 0.0))
    decreases |acts|
  {
    if acts != [] {
      var n := |acts| - 1;
      var mid := Replay(s, t, acts[..n]);
      ReplayPositiveMeansHits(s, t, acts[..n]);
      ReplayCounters(s, t, acts[..n]);
      assert acts[n] in acts;
      var g := GroupOf(s, acts[n]);
      var counts := mid.groupCount[g - 1 := mid.groupCount[g - 1] + 1];
      var v := Judge(s, mid.recommended, acts[n]);
      PositiveRewardIsHit(s, counts, g, v);
      var t' := Replay(s, t, acts);
      assert t'.rewards == mid.rewards + [Reward(s, counts, g, v)];
      if exists k :: 0 <= k < |t'.rewards| && t'.rewards[k] > 0.0 {
        var k :| 0 <= k < |t'.rewards| && t'.rewards[k] > 0.0;
        if k < |mid.rewards| {
          assert mid.rewards[k] > 0.0;
        }
      }
      if !IsFair(s.variant) && t'.hits != [] {
        if IsHit(s, v) {
          assert t'.rewards[|mid.rewards|] > 0.0;
        } else {
          var k :| 0 <= k < |mid.rewards| && mid.rewards[k] > 0.0;
          assert t'.rewards[k] > 0.0;
        }
      }
    }
  }

  /** The batch loop of `step`: each action in turn is counted in its group
      and in the total, scored, recorded as a hit when its raw reward is
      positive, and added to the recommended set. */
  method BatchLoop(s: Setting, t0: Tally, actions: seq<int>) returns (t: Tally)
    requires WellFormed(s) && |t0.groupCount| == s.nGroups
    requires forall k :: 0 <= k < |actions| ==> actions[k] in s.movieGroups
    ensures t == Replay(s, t0, actions)
  {
    var rec, counts, tot, rewards, hits := t0.recommended, t0.groupCount, t0.total, t0.rewards, t0.hits;
    var i := 0;
    while i < |actions|
      invariant 0 <= i <= |actions|
      invariant Tally(rec, counts, tot, rewards, hits) == Replay(s, t0, actions[..i])
    {
      assert actions[..i + 1][..i] == actions[..i];
      ghost var before := Tally(rec, counts, tot, rewards, hits);
      var act := actions[i];
      var g := GroupOf(s, act);
      counts := counts[g - 1 := counts[g - 1] + 1];
      tot := tot + 1;
      var v := Judge(s, rec, act);
      rewards := rewards + [Reward(s, counts, g, v)];
      if IsHit(s, v) {
        hits := hits + [act];
      }
      rec := rec + {act};
      assert Tally(rec, counts, tot, rewards, hits) == Visit(s, before, act);
      i := i + 1;
    }
    assert actions[..|actions|] == actions;
    t := Tally(rec, counts, tot, rewards, hits);
  }

  // ---------------------------------------------------------------------------
  // Termination
  // ---------------------------------------------------------------------------

  /** The episode budget: `done_count` is forced to 1000 whatever the
      constructor is given. */
  const DoneCount: nat := 1000

  /** The termination test after a step: the unfair variants compare the total
      number of recommendations with the budget, the fair ones the size of
      the recommended set; every variant also stops once the recommended set
      covers the user's history length. */
  predicate Finished(v: Variant, total: int, recommendedCount: int, historyLen: int)
  {
    (if IsFair(v) then recommendedCount else total) > DoneCount
    || recommendedCount >= historyLen
  }

  // ---------------------------------------------------------------------------
  // The environment
  // ---------------------------------------------------------------------------

  function Zeros(n: nat): (z: seq<nat>)
    ensures |z| == n && CountSum(z) == 0
  {
    if n == 0 then [] else Zeros(n - 1) + [0]
  }

  class OfflineEnv {
    const variant: Variant
    const userKeys: seq<int>                    // users_dict.keys(), in order
    const logs: map<int, seq<Interaction>>      // users_dict
    const historyLens: seq<int>                 // users_history_lens
    const stateSize: nat
    const doneCount: nat
    const nGroups: nat
    const movieGroups: map<int, int>            // item -> group in 1..nGroups
    const fairness: seq<real>                   // fairness_constraints
    const fixUser: Option<int>
    const rewardModel: RewardModel
    const availableUsers: seq<int>

    var user: int
    var userItems: map<int, int>
    var items: seq<int>
    var done: bool
    var recommended: set<int>
    var groupCount: seq<nat>                    // group g is entry g - 1
    var total: nat

    function CurrentSetting(): Setting
      reads this`user, this`userItems
    {
      Setting(variant, rewardModel, user, userItems, movieGroups, fairness, nGroups)
    }

    /** The configuration every constructed environment satisfies (the
        constructor would have raised otherwise) and the episode state kept
        consistent with it. */
    ghost predicate Valid()
      reads this`user, this`userItems, this`groupCount, this`items
    {
      && Static()
      && WellFormed(CurrentSetting())
      && user in logs
      && userItems == RatingsOf(logs[user])
      && |groupCount| == nGroups
      && FullWindow(logs[user], stateSize, items)
    }

    /** The part of the configuration that no method changes. */
    ghost predicate Static()
    {
      && |historyLens| == |userKeys|
      && (forall u :: u in logs <==> u in userKeys)
      && doneCount == DoneCount
      && availableUsers == Eligible(userKeys, historyLens, stateSize)
      && (Pinned(fixUser) ==> fixUser.value in logs)
      && (!Pinned(fixUser) ==> availableUsers != [])
    }

    /** The history length the termination test compares with:
        `users_history_lens[list(users_dict.keys()).index(user)]`. */
    function HistoryLen(): int
      reads this`user
      requires user in userKeys && |historyLens| == |userKeys|
    {
      historyLens[IndexOf(userKeys, user)]
    }

    constructor (variant: Variant, userKeys: seq<int>, logs: map<int, seq<Interaction>>,
                 historyLens: seq<int>, nGroups: nat, movieGroups: map<int, int>,
                 stateSize: nat, doneCountArg: nat, fairness: seq<real>,
                 fixUser: Option<int>, rewardModel: RewardModel, draw: nat)
      requires WellFormed(Setting(variant, rewardModel, 0, map[], movieGroups, fairness, nGroups))
      requires |historyLens| == |userKeys|
      requires forall u :: u in logs <==> u in userKeys
      requires var available := Eligible(userKeys, historyLens, stateSize);
               && (!Pinned(fixUser) && available != [] ==> draw < |available|)
               && PickUser(fixUser, available, logs, draw).Success?
      ensures this.variant == variant && this.userKeys == userKeys && this.logs == logs
      ensures this.historyLens == historyLens && this.stateSize == stateSize
      ensures this.nGroups == nGroups && this.movieGroups == movieGroups && this.fairness == fairness
      ensures this.fixUser == fixUser && this.rewardModel == rewardModel
      ensures Valid()
      ensures doneCount == DoneCount
      ensures Success(user) == PickUser(fixUser, availableUsers, logs, draw)
      ensures items == InitialWindow(logs[user], stateSize) && recommended == ItemSet(items)
      ensures !done && total == 0 && groupCount == Zeros(nGroups)
    {
      var n := Min(|userKeys|, |historyLens|);
      assert userKeys[..n] == userKeys && historyLens[..n] == historyLens;
      var available := GenerateAvailableUsers(userKeys, historyLens, stateSize);
      var u := PickUser(fixUser, available, logs, draw).value;
      this.variant := variant;
      this.userKeys := userKeys;
      this.logs := logs;
      this.historyLens := historyLens;
      this.stateSize := stateSize;
      this.doneCount := DoneCount;
      this.nGroups := nGroups;
      this.movieGroups := movieGroups;
      this.fairness := fairness;
      this.fixUser := fixUser;
      this.rewardModel := rewardModel;
      this.availableUsers := available;
      this.user := u;
      this.userItems := RatingsOf(logs[u]);
      this.items := InitialWindow(logs[u], stateSize);
      this.done := false;
      this.recommended := ItemSet(InitialWindow(logs[u], stateSize));
      this.groupCount := Zeros(nGroups);
      this.total := 0;
    }

    /** `reset`: a new episode for the pinned user or the eligible user at
        position `draw`; the group counters are zeroed only when
        `resetFairness` is set. */
    method Reset(resetFairness: bool, draw: nat) returns (u: int, window: seq<int>, isDone: bool)
      requires Valid()
      requires !Pinned(fixUser) ==> draw < |availableUsers|
      modifies this
      ensures Valid()
      ensures Success(user) == PickUser(fixUser, availableUsers, logs, draw)
      ensures items == InitialWindow(logs[user], stateSize) && recommended == ItemSet(items)
      ensures !done && total == 0
      ensures groupCount == if resetFairness then Zeros(nGroups) else old(groupCount)
      ensures u == user && window == items && isDone == done
    {
      EligibleMembers(userKeys, historyLens, stateSize, if Pinned(fixUser) then 0 else availableUsers[draw]);
      user := PickUser(fixUser, availableUsers, logs, draw).value;
      userItems := RatingsOf(logs[user]);
      items := InitialWindow(logs[user], stateSize);
      done := false;
      recommended := ItemSet(items);
      if resetFairness {
        groupCount := Zeros(nGroups);
      }
      total := 0;
      u, window, isDone := user, items, done;
    }

    /** `step(action)` with a single action. */
    method Step(action: int) returns (reward: real)
      requires Valid() && action in movieGroups
      modifies this`groupCount, this`total, this`items, this`recommended, this`done
      ensures Valid()
      ensures var g := GroupOf(CurrentSetting(), action);
              var v := Judge(CurrentSetting(), old(recommended), action);
              && groupCount == old(groupCount)[g - 1 := old(groupCount)[g - 1] + 1]
              && total == old(total) + 1
              && reward == Reward(CurrentSetting(), groupCount, g, v)
              && items == (if IsHit(CurrentSetting(), v) then Drop(old(items), 1) + [action] else old(items))
      ensures recommended == old(recommended) + {action}
      ensures done == (old(done) || Finished(variant, total, |recommended|, HistoryLen()))
    {
      var s := CurrentSetting();
      var g := GroupOf(s, action);
      var v := Judge(s, recommended, action);
      groupCount := groupCount[g - 1 := groupCount[g - 1] + 1];
      total := total + 1;
      reward := Reward(s, groupCount, g, v);
      if IsHit(s, v) {
        items := Drop(items, 1) + [action];
      }
      recommended := recommended + {action};
      if Finished(variant, total, |recommended|, HistoryLen()) {
        done := true;
      }
    }

    /** `step(action, top_k=True)` with a ranked batch: one reward per action,
        in order; the window slides by the hits when some reward is positive.
        An empty batch fails at `max([])` before anything else changes. */
    method StepBatch(actions: seq<int>) returns (r: Result<seq<real>, EnvError>)
      requires Valid()
      requires forall k :: 0 <= k < |actions| ==> actions[k] in movieGroups
      modifies this`groupCount, this`total, this`items, this`recommended, this`done
      ensures Valid()
      ensures actions == [] ==> r == Failure(EmptyBatch) && unchanged(this)
      ensures actions != [] ==>
        var t := old(Replay(CurrentSetting(), Tally(recommended, groupCount, total, [], []), actions));
        && r == Success(t.rewards)
        && recommended == t.recommended && groupCount == t.groupCount && total == t.total
        && items == BatchWindow(old(items), t.rewards, t.hits, stateSize)
        && done == (old(done) || Finished(variant, total, |recommended|, HistoryLen()))
    {
      var t := BatchLoop(CurrentSetting(), Tally(recommended, groupCount, total, [], []), actions);
      if t.rewards == [] {
        return Failure(EmptyBatch);
      }
      BatchKeepsFullWindow(logs[user], stateSize, items, t.rewards, t.hits);
      var best := MaxOf(t.rewards);
      if best > 0.0 {
        items := TakeLast(Drop(items, |t.hits|) + t.hits, stateSize);
      }
      recommended, groupCount, total := t.recommended, t.groupCount, t.total;
      if Finished(variant, total, |recommended|, HistoryLen()) {
        done := true;
      }
      r := Success(t.rewards);
    }
  }

  // ---------------------------------------------------------------------------
  // Worked scenarios
  // ---------------------------------------------------------------------------

  /** Without a reward model, window [10, 11, 12] and logged ratings
      {10: 5, 11: 2, 13: 5}: recommending 13 earns +1 and slides the window
      to [11, 12, 13]. */
  lemma ScenarioLoggedHit(groups: map<int, int>)
    requires forall a :: a in groups ==> groups[a] == 1
    ensures var s := Setting(Offline, NoModel, 1, map[10 := 5, 11 := 2, 13 := 5], groups, [], 1);
            var v := Judge(s, {10, 11, 12}, 13);
            && Reward(s, [1], 1, v) == 1.0
            && IsHit(s, v)
            && Drop([10, 11, 12], 1) + [13] == [11, 12, 13]
  {
  }

  /** In the same setting, recommending 11 (already in the window, hence
      already recommended) costs -1 and leaves the window alone. */
  lemma ScenarioRepeated(groups: map<int, int>)
    requires forall a :: a in groups ==> groups[a] == 1
    ensures var s := Setting(Offline, NoModel, 1, map[10 := 5, 11 := 2, 13 := 5], groups, [], 1);
            var v := Judge(s, {10, 11, 12}, 11);
            Reward(s, [1], 1, v) == -1.0 && !IsHit(s, v)
  {
  }

  /** Two groups with weights [0.5, 0.5] and counters {1: 3, 2: 1} (after the
      increment): a positive raw reward on a group-2 action is shaped to
      0.5 - 1/4 + 1 = 1.25. */
  lemma ScenarioShaped()
    ensures Shaped([0.5, 0.5], [3, 1], 2) == 1.25
  {
    assert WeightSum([0.5, 0.5]) == 1.0 by {
      assert [0.5, 0.5][..1] == [0.5];
      assert [0.5][..0] == [];
    }
    assert CountSum([3, 1]) == 4 by {
      assert [3, 1][..1] == [3];
      assert [3][..0] == [];
    }
  }
}
