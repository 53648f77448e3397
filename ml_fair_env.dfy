/** The earlier fairness-aware environment: the same episode state machine
    without a reward model, where every logged item not yet recommended is a
    hit, group counters live in a dict filled lazily, the group of an item
    is looked up one position further on (`movies_groups[item + 1]`), the
    observed share divides by the episode's total, and a miss costs -2. */
module LegacyFairEnv {
  import opened Common
  import opened History

  /** The episode budget of this environment. */
  const DoneCount: nat := 3000

  /** The reward of a miss (and the initial value of `reward`). */
  const MissReward: real := -2.0

  /** Everything `step` reads but never changes during an episode. */
  datatype Setting = Setting(
    userItems: map<int, int>,
    movieGroups: map<int, int>,
    fairness: seq<real>)

  /** Groups index `fairness_constraints[group - 1]`, and the weights have a
      positive sum (`sum` divides by it). */
  predicate WellFormed(s: Setting)
  {
    && (forall a :: a in s.movieGroups ==> 1 <= s.movieGroups[a] <= |s.fairness|)
    && NonNegativeWeights(s.fairness)
    && WeightSum(s.fairness) > 0.0
  }

  /** The group of an item: `movies_groups[item + 1]`. */
  function GroupOf(s: Setting, a: int): (g: int)
    requires WellFormed(s) && a + 1 in s.movieGroups
    ensures 1 <= g <= |s.fairness|
  {
    s.movieGroups[a + 1]
  }

  /** The counter of group `g`, reading an absent key as 0. */
  function Count(counts: map<int, int>, g: int): int
  {
    if g in counts then counts[g] else 0
  }

  /** `if group not in group_count: group_count[group] = 0` followed by
      `group_count[group] += 1`. */
  function Bump(counts: map<int, int>, g: int): (counts': map<int, int>)
    ensures counts'.Keys == counts.Keys + {g}
    ensures forall h :: h in counts' ==> counts'[h] == Count(counts, h) + (if h == g then 1 else 0)
  {
    var base := if g in counts then counts else counts[g := 0];
    base[g := base[g] + 1]
  }

  /** The sum of the counters of groups 1..n. */
  function CountUpTo(counts: map<int, int>, n: int): int
    decreases n
  {
    if n <= 0 then 0 else CountUpTo(counts, n - 1) + Count(counts, n)
  }

  /** Bumping a group among 1..n adds one to the sum over 1..n. */
  lemma {:induction false} BumpSum(counts: map<int, int>, g: int, n: int)
    requires 1 <= g
    ensures CountUpTo(Bump(counts, g), n) == CountUpTo(counts, n) + (if g <= n then 1 else 0)
    decreases n
  {
    if n > 0 {
      BumpSum(counts, g, n - 1);
    }
  }

  /** With non-negative counters, each one is bounded by the sum. */
  lemma {:induction false} CountBound(counts: map<int, int>, g: int, n: int)
    requires 1 <= g <= n
    requires forall h :: h in counts ==> counts[h] >= 0
    ensures 0 <= Count(counts, g) <= CountUpTo(counts, n)
    decreases n
  {
    CountNonNegative(counts, n - 1);
    if g < n {
      CountBound(counts, g, n - 1);
    }
  }

  lemma {:induction false} CountNonNegative(counts: map<int, int>, n: int)
    requires forall h :: h in counts ==> counts[h] >= 0
    ensures CountUpTo(counts, n) >= 0
    decreases n
  {
    if n > 0 {
      CountNonNegative(counts, n - 1);
    }
  }

  lemma {:induction false} CountEmpty(n: int)
    ensures CountUpTo(map[], n) == 0
    decreases n
  {
    if n > 0 {
      CountEmpty(n - 1);
    }
  }

  /** Non-negative counters, keyed by groups 1..n, whose sum is the
      episode's total. */
  predicate CountsMatch(counts: map<int, int>, n: int, total: int)
  {
    && (forall h :: h in counts ==> 1 <= h <= n && counts[h] >= 0)
    && CountUpTo(counts, n) == total
  }

  /** A bump of a group among 1..n keeps the counters matching the total. */
  lemma BumpMatches(counts: map<int, int>, n: int, total: int, g: int)
    requires CountsMatch(counts, n, total) && 1 <= g <= n
    ensures CountsMatch(Bump(counts, g), n, total + 1)
    ensures 0 < Bump(counts, g)[g] <= total + 1
  {
    BumpSum(counts, g, n);
    CountBound(Bump(counts, g), g, n);
  }

  /** The shaped reward of a hit in group `g`, read after the increment:
      target share minus the group's share of the episode's total, plus one. */
  function Shaped(fairness: seq<real>, counts: map<int, int>, total: int, g: int): real
    requires 1 <= g <= |fairness| && WeightSum(fairness) > 0.0
    requires g in counts && total > 0
  {
    fairness[g - 1] / WeightSum(fairness) - (counts[g] as real) / (total as real) + 1.0
  }

  /** When the counters sum to the total, the shaped reward lies in [0, 2). */
  lemma ShapedBounds(fairness: seq<real>, counts: map<int, int>, total: int, g: int)
    requires 1 <= g <= |fairness| && NonNegativeWeights(fairness) && WeightSum(fairness) > 0.0
    requires g in counts && 0 < counts[g] <= total
    ensures 0.0 <= Shaped(fairness, counts, total, g) < 2.0
  {
    WeightSumBound(fairness, g - 1);
    var target := fairness[g - 1] / WeightSum(fairness);
    var observed := (counts[g] as real) / (total as real);
    assert 0.0 <= target <= 1.0 by {
      Ratio(fairness[g - 1], WeightSum(fairness));
    }
    assert 0.0 < observed <= 1.0 by {
      Ratio(counts[g] as real, total as real);
    }
  }

  lemma Ratio(x: real, y: real)
    requires 0.0 <= x <= y && y > 0.0
    ensures 0.0 <= x / y <= 1.0
    ensures x > 0.0 ==> x / y > 0.0
  {
  }

  /** An action is a hit when it is logged for the user and not yet
      recommended in this episode; its rating plays no part. */
  predicate IsHit(s: Setting, recommended: set<int>, a: int)
  {
    a in s.userItems && a !in recommended
  }

  /** What the batch loop has built so far. */
  datatype Tally = Tally(
    recommended: set<int>,
    groupCount: map<int, int>,
    total: nat,
    rewards: seq<real>,
    hits: seq<int>)

  /** One iteration of the batch loop over action `a`. */
  function Visit(s: Setting, t: Tally, a: int): (t': Tally)
    requires WellFormed(s) && a + 1 in s.movieGroups
    ensures |t'.rewards| == |t.rewards| + 1
  {
    var g := GroupOf(s, a);
    var counts := Bump(t.groupCount, g);
    var total := t.total + 1;
    var hit := IsHit(s, t.recommended, a);
    Tally(
      t.recommended + {a},
      counts,
      total,
      t.rewards + [if hit then Shaped(s.fairness, counts, total, g) else MissReward],
      if hit then t.hits + [a] else t.hits)
  }

  /** The batch loop over `acts`, left to right, starting from `t`. */
  function Replay(s: Setting, t: Tally, acts: seq<int>): (t': Tally)
    requires WellFormed(s)
    requires forall k :: 0 <= k < |acts| ==> acts[k] + 1 in s.movieGroups
    ensures |t'.rewards| == |t.rewards| + |acts|
    decreases |acts|
  {
    if acts == [] then t
    else
      var n := |acts| - 1;
      Visit(s, Replay(s, t, acts[..n]), acts[n])
  }

  /** Every reward is either the miss penalty or a shaped reward in [0, 2). */
  predicate RewardsInRange(rewards: seq<real>)
  {
    forall j :: 0 <= j < |rewards| ==> rewards[j] == MissReward || 0.0 <= rewards[j] < 2.0
  }

  /** One iteration keeps the counters summing to the total, adds one to
      the total, and appends either the miss penalty or a shaped reward in
      [0, 2). */
  lemma VisitKeepsCounts(s: Setting, t: Tally, a: int)
    requires WellFormed(s) && a + 1 in s.movieGroups
    requires CountsMatch(t.groupCount, |s.fairness|, t.total)
    ensures var t' := Visit(s, t, a);
            && CountsMatch(t'.groupCount, |s.fairness|, t'.total)
            && t'.total == t.total + 1
            && (RewardsInRange(t.rewards) ==> RewardsInRange(t'.rewards))
  {
    var g := GroupOf(s, a);
    BumpMatches(t.groupCount, |s.fairness|, t.total, g);
    if IsHit(s, t.recommended, a) {
      ShapedBounds(s.fairness, Bump(t.groupCount, g), t.total + 1, g);
    }
  }

  /** Through a batch the counters keep summing to the total, each action
      adds exactly one to the total, and every reward is either the miss
      penalty or a shaped reward in [0, 2): no hit is ever penalised and no
      reward is negative except -2. */
  lemma {:induction false} ReplayKeepsCounts(s: Setting, t: Tally, acts: seq<int>)
    requires WellFormed(s)
    requires forall k :: 0 <= k < |acts| ==> acts[k] + 1 in s.movieGroups
    requires CountsMatch(t.groupCount, |s.fairness|, t.total)
    ensures CountsMatch(Replay(s, t, acts).groupCount, |s.fairness|, Replay(s, t, acts).total)
    ensures Replay(s, t, acts).total == t.total + |acts|
    ensures RewardsInRange(t.rewards) ==> RewardsInRange(Replay(s, t, acts).rewards)
    decreases |acts|
  {
    if acts != [] {
      var n := |acts| - 1;
      ReplayKeepsCounts(s, t, acts[..n]);
      VisitKeepsCounts(s, Replay(s, t, acts[..n]), acts[n]);
    }
  }

  /** A positive reward in a batch means the batch has hits, so the window
      never moves without something to append. */
  lemma {:induction false} ReplayPositiveMeansHits(s: Setting, t: Tally, acts: seq<int>)
    requires WellFormed(s)
    requires forall k :: 0 <= k < |acts| ==> acts[k] + 1 in s.movieGroups
    requires t.rewards == [] && t.hits == []
    ensures AnyPositive(Replay(s, t, acts).rewards) ==> Replay(s, t, acts).hits != []
    decreases |acts|
  {
    if acts != [] {
      var n := |acts| - 1;
      var mid := Replay(s, t, acts[..n]);
      ReplayPositiveMeansHits(s, t, acts[..n]);
      var t' := Replay(s, t, acts);
      if AnyPositive(t'.rewards) && !IsHit(s, mid.recommended, acts[n]) {
        var k :| 0 <= k < |t'.rewards| && t'.rewards[k] > 0.0;
        assert t'.rewards == mid.rewards + [MissReward];
        assert k < |mid.rewards| && mid.rewards[k] > 0.0;
      }
    }
  }

  /** The termination test: more recommended items than the budget, or as
      many as `users_history_lens[user - 1]`. */
  predicate Finished(recommendedCount: int, historyLens: seq<int>, user: int)
    requires -|historyLens| <= user - 1 < |historyLens|
  {
    recommendedCount > DoneCount
    || recommendedCount >= historyLens[PyIndex(user - 1, |historyLens|)]
  }

  // ---------------------------------------------------------------------------
  // Item names
  // ---------------------------------------------------------------------------

  function DigitChar(d: nat): char
    requires d < 10
  {
    "0123456789"[d]
  }

  function DigitValue(c: char): int
  {
    if '0' <= c <= '9' then (c as int) - ('0' as int) else 0
  }

  /** The decimal digits of a natural number, most significant first. */
  function Digits(n: nat): (s: string)
    ensures |s| > 0
    decreases n
  {
    if n < 10 then [DigitChar(n)] else Digits(n / 10) + [DigitChar(n % 10)]
  }

  /** Python `str(id)` for an integer id. */
  function IntToDecimal(n: int): (s: string)
    ensures |s| > 0
  {
    if n < 0 then "-" + Digits(-n) else Digits(n)
  }

  /** Reads back a string of decimal digits. */
  function ParseDigits(s: string): int
  {
    if s == [] then 0 else 10 * ParseDigits(s[..|s| - 1]) + DigitValue(s[|s| - 1])
  }

  /** Reads back an optionally negative decimal numeral. */
  function ParseDecimal(s: string): int
  {
    if s != [] && s[0] == '-' then -ParseDigits(s[1..]) else ParseDigits(s)
  }

  lemma {:induction false} DigitsRoundTrip(n: nat)
    ensures ParseDigits(Digits(n)) == n
    ensures Digits(n)[0] != '-'
    decreases n
  {
    if n >= 10 {
      DigitsRoundTrip(n / 10);
      var s := Digits(n);
      assert s[..|s| - 1] == Digits(n / 10);
    }
  }

  /** `str` on ids is injective and can be read back: distinct ids look up
      distinct keys of the names table. */
  lemma DecimalRoundTrip(n: int)
    ensures ParseDecimal(IntToDecimal(n)) == n
  {
    if n < 0 {
      DigitsRoundTrip(-n);
      assert IntToDecimal(n)[1..] == Digits(-n);
    } else {
      DigitsRoundTrip(n);
    }
  }

  /** The name entry for one id: the table's entry under `str(id)`, or
      `["Not in list"]` when the lookup raises. */
  function NameOf(table: map<string, seq<string>>, id: int): seq<string>
  {
    if IntToDecimal(id) in table then table[IntToDecimal(id)] else ["Not in list"]
  }

  // ---------------------------------------------------------------------------
  // The environment
  // ---------------------------------------------------------------------------

  class OfflineEnv {
    const userKeys: seq<int>                    // users_dict.keys(), in order
    const logs: map<int, seq<Interaction>>      // users_dict
    const historyLens: seq<int>                 // users_history_lens
    const itemNames: map<string, seq<string>>   // items_id_to_name
    const movieGroups: map<int, int>
    const stateSize: nat
    const fairness: seq<real>
    const fixUser: Option<int>
    const availableUsers: seq<int>
    const doneCount: nat

    var user: int
    var userItems: map<int, int>
    var items: seq<int>
    var done: bool
    var recommended: set<int>
    var groupCount: map<int, int>
    var total: nat

    function CurrentSetting(): Setting
      reads this`userItems
    {
      Setting(userItems, movieGroups, fairness)
    }

    /** The configuration every constructed environment satisfies and the
        episode state kept consistent with it; in particular the group
        counters always sum to the episode's total. */
    ghost predicate Valid()
      reads this`user, this`userItems, this`groupCount, this`total, this`items
    {
      && Static()
      && user in logs
      && userItems == RatingsOf(logs[user])
      && CountsMatch(groupCount, |fairness|, total)
      && FullWindow(logs[user], stateSize, items)
    }

    /** The part of the configuration that no method changes. */
    ghost predicate Static()
    {
      && WellFormed(Setting(map[], movieGroups, fairness))
      && (forall u :: u in logs <==> u in userKeys)
      && doneCount == DoneCount
      && (var n := Min(|userKeys|, |historyLens|);
          availableUsers == Eligible(userKeys[..n], historyLens[..n], stateSize))
      && (Pinned(fixUser) ==> fixUser.value in logs)
      && (!Pinned(fixUser) ==> availableUsers != [])
    }

    lemma SettingWellFormed()
      requires Static()
      ensures WellFormed(CurrentSetting())
    {
    }

    constructor (userKeys: seq<int>, logs: map<int, seq<Interaction>>, historyLens: seq<int>,
                 itemNames: map<string, seq<string>>, movieGroups: map<int, int>,
                 stateSize: nat, fairness: seq<real>, fixUser: Option<int>, draw: nat)
      requires WellFormed(Setting(map[], movieGroups, fairness))
      requires forall u :: u in logs <==> u in userKeys
      requires var n := Min(|userKeys|, |historyLens|);
               var available := Eligible(userKeys[..n], historyLens[..n], stateSize);
               && (!Pinned(fixUser) && available != [] ==> draw < |available|)
               && PickUser(fixUser, available, logs, draw).Success?
      ensures this.userKeys == userKeys && this.logs == logs && this.historyLens == historyLens
      ensures this.itemNames == itemNames && this.movieGroups == movieGroups
      ensures this.stateSize == stateSize && this.fairness == fairness && this.fixUser == fixUser
      ensures Valid()
      ensures Success(user) == PickUser(fixUser, availableUsers, logs, draw)
      ensures items == InitialWindow(logs[user], stateSize) && recommended == ItemSet(items)
      ensures !done && total == 0 && groupCount == map[]
    {
      var available := GenerateAvailableUsers(userKeys, historyLens, stateSize);
      var u := PickUser(fixUser, available, logs, draw).value;
      CountEmpty(|fairness|);
      this.userKeys := userKeys;
      this.logs := logs;
      this.historyLens := historyLens;
      this.itemNames := itemNames;
      this.movieGroups := movieGroups;
      this.stateSize := stateSize;
      this.fairness := fairness;
      this.fixUser := fixUser;
      this.availableUsers := available;
      this.doneCount := DoneCount;
      this.user := u;
      this.userItems := RatingsOf(logs[u]);
      this.items := InitialWindow(logs[u], stateSize);
      this.done := false;
      this.recommended := ItemSet(InitialWindow(logs[u], stateSize));
      this.groupCount := map[];
      this.total := 0;
    }

    /** `reset`: a new episode for the pinned user or the eligible user at
        position `draw`, with the group counters cleared. */
    method Reset(draw: nat) returns (u: int, window: seq<int>, isDone: bool)
      requires Valid()
      requires !Pinned(fixUser) ==> draw < |availableUsers|
      modifies this`user, this`userItems, this`items, this`done, this`recommended, this`groupCount, this`total
      ensures Valid()
      ensures Success(user) == PickUser(fixUser, availableUsers, logs, draw)
      ensures items == InitialWindow(logs[user], stateSize) && recommended == ItemSet(items)
      ensures !done && total == 0 && groupCount == map[]
      ensures u == user && window == items && isDone == done
    {
      if !Pinned(fixUser) {
        var n := Min(|userKeys|, |historyLens|);
        EligibleMembers(userKeys[..n], historyLens[..n], stateSize, availableUsers[draw]);
        var i :| 0 <= i < n && userKeys[..n][i] == availableUsers[draw];
        assert userKeys[i] in userKeys;
      }
      CountEmpty(|fairness|);
      user := PickUser(fixUser, availableUsers, logs, draw).value;
      userItems := RatingsOf(logs[user]);
      items := InitialWindow(logs[user], stateSize);
      done := false;
      recommended := ItemSet(items);
      groupCount := map[];
      total := 0;
      u, window, isDone := user, items, done;
    }

    /** `step(action)` with a single action. The window shifts when the
        reward is at least 0, which happens exactly for a hit. */
    method Step(action: int) returns (reward: real)
      requires Valid() && action + 1 in movieGroups
      requires -|historyLens| <= user - 1 < |historyLens|
      modifies this`groupCount, this`total, this`items, this`recommended, this`done
      ensures Valid()
      ensures var g := movieGroups[action + 1];
              && groupCount == Bump(old(groupCount), g)
              && total == old(total) + 1
              && reward == (if IsHit(CurrentSetting(), old(recommended), action)
                            then Shaped(fairness, groupCount, total, g) else MissReward)
      ensures reward >= 0.0 <==> IsHit(CurrentSetting(), old(recommended), action)
      ensures items == if IsHit(CurrentSetting(), old(recommended), action)
                       then Drop(old(items), 1) + [action] else old(items)
      ensures recommended == old(recommended) + {action}
      ensures done == (old(done) || Finished(|recommended|, historyLens, user))
    {
      var s := CurrentSetting();
      var g := GroupOf(s, action);
      BumpMatches(groupCount, |fairness|, total, g);
      groupCount := Bump(groupCount, g);
      total := total + 1;
      reward := MissReward;
      if IsHit(s, recommended, action) {
        ShapedBounds(fairness, groupCount, total, g);
        reward := Shaped(fairness, groupCount, total, g);
      }
      if reward >= 0.0 {
        items := Drop(items, 1) + [action];
      }
      recommended := recommended + {action};
      if Finished(|recommended|, historyLens, user) {
        done := true;
      }
    }

    /** `step(action, top_k=True)` with a ranked batch: a shaped reward per
        hit and -2 per miss, in order; the window slides by the hits when
        some reward is positive. An empty batch fails at `max([])`. */
    method StepBatch(actions: seq<int>) returns (r: Result<seq<real>, EnvError>)
      requires Valid()
      requires forall k :: 0 <= k < |actions| ==> actions[k] + 1 in movieGroups
      requires -|historyLens| <= user - 1 < |historyLens|
      modifies this`groupCount, this`total, this`items, this`recommended, this`done
      ensures Valid()
      ensures actions == [] ==> r == Failure(EmptyBatch) && unchanged(this)
      ensures actions != [] ==>
        var t := old(Replay(CurrentSetting(), Tally(recommended, groupCount, total, [], []), actions));
        && r == Success(t.rewards)
        && recommended == t.recommended && groupCount == t.groupCount && total == t.total
        && items == BatchWindow(old(items), t.rewards, t.hits, stateSize)
        && done == (old(done) || Finished(|recommended|, historyLens, user))
    {
      SettingWellFormed();
      var t0 := Tally(recommended, groupCount, total, [], []);
      var t := BatchLoop(CurrentSetting(), t0, actions);
      if t.rewards == [] {
        return Failure(EmptyBatch);
      }
      BatchKeepsFullWindow(logs[user], stateSize, items, t.rewards, t.hits);
      var best := MaxOf(t.rewards);
      if best > 0.0 {
        items := TakeLast(Drop(items, |t.hits|) + t.hits, stateSize);
      }
      recommended, groupCount, total := t.recommended, t.groupCount, t.total;
      if Finished(|recommended|, historyLens, user) {
        done := true;
      }
      r := Success(t.rewards);
    }

    /** `get_items_names`: one entry per id, in order. */
    method GetItemsNames(ids: seq<int>) returns (names: seq<seq<string>>)
      ensures |names| == |ids|
      ensures forall i :: 0 <= i < |ids| ==> names[i] == NameOf(itemNames, ids[i])
    {
      names := [];
      var i := 0;
      while i < |ids|
        invariant 0 <= i <= |ids|
        invariant |names| == i
        invariant forall j :: 0 <= j < i ==> names[j] == NameOf(itemNames, ids[j])
      {
        var key := IntToDecimal(ids[i]);
        if key in itemNames {
          names := names + [itemNames[key]];
        } else {
          names := names + [["Not in list"]];
        }
        i := i + 1;
      }
    }
  }

  /** The batch loop of `step`. */
  method BatchLoop(s: Setting, t0: Tally, actions: seq<int>) returns (t: Tally)
    requires WellFormed(s)
    requires forall k :: 0 <= k < |actions| ==> actions[k] + 1 in s.movieGroups
    requires CountsMatch(t0.groupCount, |s.fairness|, t0.total)
    ensures t == Replay(s, t0, actions)
    ensures CountsMatch(t.groupCount, |s.fairness|, t.total)
  {
    var rec, counts, total, rewards, hits := t0.recommended, t0.groupCount, t0.total, t0.rewards, t0.hits;
    var i := 0;
    while i < |actions|
      invariant 0 <= i <= |actions|
      invariant Tally(rec, counts, total, rewards, hits) == Replay(s, t0, actions[..i])
    {
      assert actions[..i + 1][..i] == actions[..i];
      ghost var before := Tally(rec, counts, total, rewards, hits);
      var act := actions[i];
      var g := GroupOf(s, act);
      counts := Bump(counts, g);
      total := total + 1;
      if IsHit(s, rec, act) {
        hits := hits + [act];
        rewards := rewards + [Shaped(s.fairness, counts, total, g)];
      } else {
        rewards := rewards + [MissReward];
      }
      rec := rec + {act};
      assert Tally(rec, counts, total, rewards, hits) == Visit(s, before, act);
      i := i + 1;
    }
    assert actions[..|actions|] == actions;
    t := Tally(rec, counts, total, rewards, hits);
    ReplayKeepsCounts(s, t0, actions);
  }

  // ---------------------------------------------------------------------------
  // Worked scenarios
  // ---------------------------------------------------------------------------

  /** A hit can earn exactly 0: with weights [0, 1], the first hit of an
      episode, in group 1, is shaped to 0 - 1/1 + 1. A single step still
      shifts the window (`reward >= 0`), while a batch made of that hit
      alone leaves it where it was (`max(rewards) > 0` fails). */
  lemma ScenarioZeroHit()
    ensures Shaped([0.0, 1.0], map[1 := 1], 1, 1) == 0.0
    ensures !AnyPositive([Shaped([0.0, 1.0], map[1 := 1], 1, 1)])
  {
    assert WeightSum([0.0, 1.0]) == 1.0 by {
      assert [0.0, 1.0][..1] == [0.0];
      assert [0.0][..0] == [];
    }
  }

  /** Two groups with weights [0.5, 0.5] after three recommendations, two of
      them in group 2: a hit in group 2 is shaped to 0.5 - 2/3 + 1. */
  lemma ScenarioShaped()
    ensures Shaped([0.5, 0.5], map[1 := 1, 2 := 2], 3, 2) == 0.5 - 2.0 / 3.0 + 1.0
  {
    assert WeightSum([0.5, 0.5]) == 1.0 by {
      assert [0.5, 0.5][..1] == [0.5];
      assert [0.5][..0] == [];
    }
  }
}
