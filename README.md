# drl-recsys: recommendation environments and bandit policies in Dafny

This project models the discrete core of the drl-recsys repository and proves properties of it. It has three parts.

- **The offline recommendation environments** of `src/environment/ml_env.py`: `OfflineEnv`, `OfflineFairEnv`, `SimulatedEnv` and `SimulatedFairEnv`.
  - An episode follows one user's logged history. Its state is:
    - a window of recent items;
    - the set of items recommended so far;
    - per-group recommendation counters;
    - a running total;
    - a `done` flag.
  - `reset` starts an episode.
  - `step` scores one action or a ranked batch, slides the window on hits and decides termination.
  - The four classes share their state and `reset`, and differ only in `step`. They are therefore one class, `RecEnv.OfflineEnv`, with a `Variant`.
- **The earlier fair environment** of `src/environment/ml_fair_env.py`, which has the same shape but different rules (`LegacyFairEnv.OfflineEnv`):
  - lazily created group counters;
  - group lookup at `item + 1`;
  - a miss penalty of -2;
  - a window that moves when the reward is at least 0;
  - an episode budget of 3000.
- **The bandit policies** of `src/model/recommender/bandit.py`:
  - `EpsilonGreedy`;
  - `LinUCB` with the `BaseLinPolicy` bookkeeping, where per-action inverse Gram matrices are updated by Sherman-Morrison and staged counters are committed every `batch_size` trials;
  - `FairLinUCB`, which forces the action furthest below its target share.

State that the source changes in place is modelled with classes:
- environment fields are `var`s;
- policy counters are `array`s, updated in place and committed by copying.

Rewards, shares and matrix entries are `real`, so the arithmetic is exact. Pure logic is modelled with functions and lemmas:
- reward rules;
- the batch loop as a fold (`Replay`);
- Sherman-Morrison algebra;
- ranking;
- fairness deficits.

Randomness and the learned reward model become parameters:
- `draw` and `picks` carry the random choices;
- `RewardModel.Model(predict)` carries the reward model.

Modules:
- `Common` (`common.dfy`): Option/Result, sums, and Python slicing of windows.
- `History` (`history.dfy`): logged histories, eligible users, the initial window and the choice of user.
- `RecEnv` (`ml_env.dfy`).
- `LegacyFairEnv` (`ml_fair_env.dfy`).
- `LinAlg` (`linalg.dfy`): vectors, matrices, and the Sherman-Morrison proof.
- `Ranking` (`ranking.dfy`): `argsort`, reversal, top-k and positional selection.
- `Bandit` (`bandit.dfy`).

## Model

| member | source | states |
|---|---|---|
| `History.GenerateAvailableUsers` | src/environment/ml_env.py:52-57 | The loop returns exactly the keys whose paired history length exceeds `state_size`, in key order, over the zipped (shorter) length; both directions of membership are stated. |
| `History.EligibleMembers` | src/environment/ml_fair_env.py:46-51 | A user is eligible iff some paired position carries it with a history longer than `state_size`. |
| `History.RatingsOfLookup` | src/environment/ml_env.py:38 | The `{item: rating}` dict maps each logged item to the rating of its last log entry. |
| `History.RatingsOfKeys` | src/environment/ml_env.py:71 | The dict's keys are exactly the logged items. |
| `History.PickUser` | src/environment/ml_env.py:66-70 | The episode's user. The pinned id wins when it is truthy (non-zero), otherwise the eligible user at the random position. It fails on an empty eligible list or an id with no log. |
| `History.IndexOf` | src/environment/ml_env.py:345 | `list.index`: the first position holding the user. |
| `RecEnv.GetRewardSign` | src/environment/ml_env.py:59-63 | With a model `get_reward` is `0.5*(rating-3)`, otherwise ±1. Both scales are positive exactly for ratings ≥ 4. |
| `RecEnv.RewardRules` | src/environment/ml_env.py:136-160 | The single-step reward in priority order, for all four variants (see also ml_env.py:283-338, 418-429 and 527-554):<br>• already recommended: -1;<br>• logged: `get_reward`;<br>• unlogged: `predict` or 0;<br>• simulated: `predict`;<br>• fair: a positive raw reward becomes the shaped one, other rewards -1, and an unscored action stays 0. |
| `RecEnv.ShapedBounds` | src/environment/ml_env.py:290-300 | The shaped reward `c[g-1]/Σc − count[g]/Σcount + 1` lies in [0, 2). It exceeds 1 iff the group's observed share is below its target. |
| `RecEnv.PositiveRewardIsHit` | src/environment/ml_env.py:162-163 | A positive reported reward comes from a hit (a positive raw reward). Without shaping the converse holds. |
| `RecEnv.VisitCounters` | src/environment/ml_env.py:90-91 | One batch iteration adds 1 to the total and 1 to the sum of the group counters, keeps earlier rewards and adds at most one hit. |
| `RecEnv.ReplayCounters` | src/environment/ml_env.py:86-123 | A batch of k actions adds k to both the total and the counter sum, so their difference is preserved. It appends rewards and at most k hits. |
| `RecEnv.ReplayRecommended` | src/environment/ml_env.py:123 | After a batch the recommended set is the old set plus exactly the batch's actions. |
| `RecEnv.ReplayRecommends` | src/environment/ml_env.py:123 | Every action of a batch is recommended afterwards. |
| `RecEnv.ReplayRewardAt` | src/environment/ml_env.py:89-123 | Reward j of a batch is judged against what actions 0..j-1 left behind: one reward per action, in order. |
| `RecEnv.RepeatInBatchPenalised` | src/environment/ml_env.py:120-123 | A repeated action inside one batch gets -1. |
| `RecEnv.ReplayPositiveMeansHits` | src/environment/ml_env.py:125-129 | A positive reward in a batch implies some hit. Without shaping the converse holds. |
| `RecEnv.BatchLoop` | src/environment/ml_env.py:86-123 | The loop computes exactly the fold `Replay` of the per-action rule. |
| `RecEnv.OfflineEnv.constructor` | src/environment/ml_env.py:6-50 | `done_count` is forced to 1000. The user is picked, the window is the first `state_size` logged items, the recommended set is the window's set, and the counters are all zero. `Valid()` holds, which includes the window-width invariant: a user with at least `state_size` logged items has a window exactly `state_size` wide. |
| `RecEnv.OfflineEnv.Reset` | src/environment/ml_env.py:65-81 | A new episode: the window and its set as at construction, `done` false, total 0. The group counters are zeroed iff `reset_fairness_status`, otherwise unchanged. `Valid()`, with the window-width invariant, is re-established. |
| `RecEnv.OfflineEnv.Step` | src/environment/ml_env.py:132-174 | A single step increments the action's group and the total, and the reward follows `Reward`. The window becomes `items[1:] + [action]` exactly on a hit. The action joins the recommended set. `done` is only ever set, by the variant's termination test. `Valid()` is kept, so a full window stays `state_size` wide. |
| `RecEnv.OfflineEnv.StepBatch` | src/environment/ml_env.py:86-130 | A batch gives one reward per action, with set, counters and total as `Replay` computes them. The window is `(items[k:] + hits)[-state_size:]` iff some reward is positive. An empty batch fails, changing nothing. `done` is only ever set. `Valid()` is kept, so a full window stays `state_size` wide. |
| `RecEnv.ScenarioLoggedHit` | src/environment/ml_env.py:136-163 | A logged rating of 5 without a model earns +1 and slides the window. |
| `RecEnv.ScenarioRepeated` | src/environment/ml_env.py:159-163 | An item already in the window earns -1 and does not slide it. |
| `RecEnv.ScenarioShaped` | src/environment/ml_env.py:290-300 | Weights [0.5, 0.5] and counters {1: 3, 2: 1} shape a group-2 hit to 1.25. |
| `Common.MaxOf` | src/environment/ml_env.py:125 | `max(rewards)` is an element bounding all the others. |
| `Common.BatchWindowShape` | src/environment/ml_env.py:125-129 | A full window keeps its width `state_size` through a batch. A moving window is the last `state_size` entries of `items + hits` and ends with the hits. |
| `History.BatchKeepsFullWindow` | src/environment/ml_env.py:125-129 | If the window is exactly `state_size` wide for a user with at least `state_size` logged items, it stays so after a batch, whether or not it moves. |
| `Common.SlidingWindow` | src/environment/ml_fair_env.py:97-101 | `(items[k:] + hits)[-n:]` with `k = len(hits)` on a full window equals `(items + hits)[k:]`, of length n. |
| `LegacyFairEnv.Bump` | src/environment/ml_fair_env.py:76-78 | A missing group is inserted at 0 and then incremented; no other key changes. |
| `LegacyFairEnv.BumpMatches` | src/environment/ml_fair_env.py:105-109 | After a bump the counters still sum to the total (+1), and the bumped counter lies in (0, total]. |
| `LegacyFairEnv.ShapedBounds` | src/environment/ml_fair_env.py:115-122 | The shaped reward `c[g-1]/Σc − count[g]/total + 1` lies in [0, 2). |
| `LegacyFairEnv.VisitKeepsCounts` | src/environment/ml_fair_env.py:75-95 | One batch iteration keeps the counters summing to the total and appends either -2 or a shaped reward in [0, 2). |
| `LegacyFairEnv.ReplayKeepsCounts` | src/environment/ml_fair_env.py:74-95 | Through a batch, Σ`group_count` == total and each action adds 1. Every reward is -2 or in [0, 2). |
| `LegacyFairEnv.ReplayPositiveMeansHits` | src/environment/ml_fair_env.py:97-101 | A positive reward in a batch implies a non-empty `correctly_recommended`. |
| `LegacyFairEnv.BatchLoop` | src/environment/ml_fair_env.py:74-95 | The loop computes exactly `Replay` and keeps the counters matching the total. |
| `LegacyFairEnv.OfflineEnv.constructor` | src/environment/ml_fair_env.py:5-44 | `done_count` is 3000. The counters are empty and the total is 0. The window and set are as in `RecEnv`. `Valid()` holds, including the window-width invariant of `RecEnv`. |
| `LegacyFairEnv.OfflineEnv.Reset` | src/environment/ml_fair_env.py:53-65 | A new episode with the counters cleared and the total 0. `Valid()`, with the window-width invariant, is re-established. |
| `LegacyFairEnv.OfflineEnv.Step` | src/environment/ml_fair_env.py:104-134 | The group is read at `action + 1` and bumped, and the total incremented. A hit (logged, not yet recommended) earns the shaped reward and anything else -2. The reward is ≥ 0 iff the action is a hit, and exactly then the window slides. `done` uses `len(recommended) > 3000` or `≥ users_history_lens[user-1]` and is never cleared. `Valid()` is kept, so a full window stays `state_size` wide. |
| `LegacyFairEnv.OfflineEnv.StepBatch` | src/environment/ml_fair_env.py:71-102 | One reward per action as `Replay` computes it. The window is `(items[k:] + hits)[-state_size:]` iff some reward is positive. An empty batch fails. `done` is only ever set (lines 128-132). `Valid()` is kept, so a full window stays `state_size` wide. |
| `LegacyFairEnv.OfflineEnv.GetItemsNames` | src/environment/ml_fair_env.py:136-143 | One entry per id, in order: the table's entry under `str(id)`, or `["Not in list"]`. The repository's MovieLens loaders key that table by the numeric movie id, so with their tables every lookup takes the `["Not in list"]` fallback. |
| `LegacyFairEnv.DecimalRoundTrip` | src/environment/ml_fair_env.py:140 | `str(id)` reads back to `id`, so distinct ids look up distinct keys. |
| `LegacyFairEnv.ScenarioZeroHit` | src/environment/ml_fair_env.py:97-125 | A hit can be shaped to exactly 0: a single step still slides the window (`>= 0`), while a batch of that hit alone does not (`max > 0`). |
| `LegacyFairEnv.ScenarioShaped` | src/environment/ml_fair_env.py:115-122 | Weights [0.5, 0.5] with 2 of 3 recommendations in group 2 shape a group-2 hit to 0.5 − 2/3 + 1. |
| `LinAlg.ShermanMorrisonInverse` | src/model/recommender/bandit.py:130-137 | If `A_inv_temp[a]` inverts G, the updated matrix inverts `G + xᵀx`. |
| `LinAlg.ShermanMorrisonSymmetric` | src/model/recommender/bandit.py:131-137 | The update keeps a symmetric matrix symmetric. |
| `LinAlg.SymmetricVecMat` | src/model/recommender/bandit.py:132-135 | For a symmetric A, `x @ A` equals `A @ xᵀ`. |
| `LinAlg.IdentityInverse` | src/model/recommender/bandit.py:106-113 | The identity each `A_inv` starts from inverts the identity Gram matrix. |
| `Ranking.ArgSortSpec` | src/model/recommender/bandit.py:56 | `argsort` lists every index exactly once, by ascending score. |
| `Ranking.TopOfAscending` | src/model/recommender/bandit.py:59 | `[::-1][:k]` of an ascending order is descending, without duplicates. |
| `Ranking.RankedTop` | src/model/recommender/bandit.py:210-213 | Without a selection: `min(len_list, n)` distinct actions, highest score first. No unselected action scores above a selected one. |
| `Ranking.SelectedShape` | src/model/recommender/bandit.py:211-213 | With a selection of positions: defined iff every position is in range, and then it yields `min(len_list, len(available))` action indices. |
| `Bandit.CommittedStep` | src/model/recommender/bandit.py:77-78 | One more trial either completes a batch (`n_trial % batch_size == 0`) or leaves the committed trial count unchanged. |
| `Bandit.MeansOfZeroSums` | src/model/recommender/bandit.py:55 | With zero reward sums every estimated mean is zero. |
| `Bandit.StageCount` | src/model/recommender/bandit.py:75 | Staging a trial keeps the counts non-negative and adds one to their sum. |
| `Bandit.NewEpsilonGreedy` | src/model/recommender/bandit.py:37-40 | Construction fails with `InvalidEpsilon` iff epsilon is not in [0, 1]. |
| `Bandit.EpsilonGreedy.constructor` | src/model/recommender/bandit.py:37-40 | `n_trial` 0 and all four counter arrays zero (the invariant holds). |
| `Bandit.EpsilonGreedy.SelectAction` | src/model/recommender/bandit.py:44-63 | Exploits iff draw > epsilon and every live count is > 0, then ranks actions by mean reward (distinct, descending). Otherwise it takes `len_list` distinct draws from the available items or `range(n_actions)`, failing when there are too few. It returns at most `len_list` actions. |
| `Bandit.EpsilonGreedy.UpdateParams` | src/model/recommender/bandit.py:65-78 | `n_trial` +1. Only the chosen action's staged counters change (+1, +reward). The live counts become the staged counts exactly when `n_trial % batch_size == 0`. The invariants kept: staged counts sum to `n_trial`, live counts to the last multiple of `batch_size`, live reward sums stay 0. |
| `Bandit.IdentityHealthy` | src/model/recommender/bandit.py:105-114 | An untried action's estimator (identity, zero vector) is a symmetric inverse of its Gram matrix. |
| `Bandit.HealthyAfterUpdate` | src/model/recommender/bandit.py:131-138 | One observation keeps an action's estimator a symmetric inverse of its Gram matrix `G + xᵀx`. |
| `Bandit.FreshHealthy` | src/model/recommender/bandit.py:106-114 | All actions' fresh estimators are healthy. |
| `Bandit.HealthyAt` | src/model/recommender/bandit.py:131-138 | Replacing one action's estimator by a healthy one keeps every estimator healthy. |
| `Bandit.Theta` | src/model/recommender/bandit.py:195-201 | `theta_hat` has one `dim`-vector per action. |
| `Bandit.UcbScores` | src/model/recommender/bandit.py:209 | One UCB score per action. |
| `Bandit.LinUCB.constructor` | src/model/recommender/bandit.py:101-114 | Every `A_inv[a]` and `A_inv_temp[a]` is the identity; `b`, `b_temp`, `theta_hat` and the counts are zero. |
| `Bandit.NewLinUCB` | src/model/recommender/bandit.py:173-176 | Construction fails with `InvalidEpsilon` iff epsilon < 0. |
| `Bandit.LinUCB.UpdateParams` | src/model/recommender/bandit.py:116-143 | `n_trial` and the live count of the action +1 immediately. Only `A_inv_temp[a]` (Sherman-Morrison) and `b_temp[a]` (+ reward·x) change. The staged matrices and vectors are copied to the live ones exactly when `n_trial % batch_size == 0`. Every matrix stays a symmetric inverse of its Gram matrix. |
| `Bandit.LinUCB.Stage` | src/model/recommender/bandit.py:127-138 | The staging half: counts, `A_inv_temp[a]` and `b_temp[a]` updated, nothing else. |
| `Bandit.LinUCB.Commit` | src/model/recommender/bandit.py:139-143 | The commit half: the live estimator becomes a copy of the staged one. |
| `Bandit.LinUCB.SelectAction` | src/model/recommender/bandit.py:180-215 | Fails unless the context has one row. `theta_hat` is refreshed from the committed `A_inv` and `b`. The result is the top `len_list` actions by `x·θ[a] + ε·σ[a]`: distinct, descending, and none left out scoring higher. |
| `Bandit.Deficits` | src/model/recommender/bandit.py:255-258 | Defined iff the weights broadcast against the counts, with the broadcast length. |
| `Bandit.Kept` | src/model/recommender/bandit.py:260 | `fair[~(fair < alpha)]`: no longer than the deficits, and every kept entry ≥ alpha. |
| `Bandit.KeptValues` | src/model/recommender/bandit.py:260 | Each kept entry is the deficit of its action. |
| `Bandit.KeptAscending` | src/model/recommender/bandit.py:260 | The kept actions are in increasing order. |
| `Bandit.KeptComplete` | src/model/recommender/bandit.py:260 | Every action with a deficit ≥ alpha is kept. |
| `Bandit.ArgMax` | src/model/recommender/bandit.py:279 | `np.argmax`: a position of a largest entry, with every earlier entry strictly smaller. |
| `Bandit.ForcedActionSpec` | src/model/recommender/bandit.py:277-279 | The corrected forced action has deficit ≥ alpha, is the largest deficit, and is the first such. |
| `Bandit.FairLinUCB.constructor` | src/model/recommender/bandit.py:247-250 | The LinUCB initialisation plus the fairness weights and alpha. |
| `Bandit.NewFairLinUCB` | src/model/recommender/bandit.py:247-250 | Construction fails with `InvalidEpsilon` iff epsilon < 0. |
| `Bandit.FairLinUCB.SelectAction` | src/model/recommender/bandit.py:262-298 | The result depends on the case:<br>• a context without one row fails;<br>• weights that do not broadcast fail;<br>• when some deficit is ≥ alpha, exactly one action, the one with the largest deficit, with `theta_hat` untouched;<br>• otherwise the top `len_list` of all actions by UCB score, ignoring `available_items`. |
| `Bandit.FilteredArgMaxNamesWrongAction` | src/model/recommender/bandit.py:277-279 | With weights [0.5, 0.5] and counts [3, 0] the deficits are [-2, 1]. The source's argmax over the filtered array names action 0, whose deficit is below alpha = 0; the corrected choice is action 1. |
| `Bandit.OneUpdateScenario` | src/model/recommender/bandit.py:131-138 | From the identity, one update with x = [1] and reward 1 gives `A_inv = [[0.5]]`, `b = [1]` and the estimate 0.5. |

## Left out

- Learned reward model: `reward_model.predict` (torch tensors, device transfer) is an uninterpreted function `(user, item) -> real`. Its truthiness check is whether a model is given.
- Randomness:
  - `np.random.choice` over the eligible users is a caller-supplied position `draw`;
  - `random_.rand()` is a `draw: real`;
  - `random_.choice(..., replace=False)` is caller-supplied distinct positions `picks`.
- The confidence widths `sqrt(x @ A_inv[a] @ x.T)` are given as `sigma`. The square root and any floating-point rounding are not modelled; all arithmetic is exact over `real`.
- The dataset loaders, `train_rsrl.py` and the luigi/yaml glue are not part of this model. Their outputs are constructor parameters: per-user logs, history lengths, and an item → group map in 1..n_groups.
- The obp base classes are not part of this model. The constructors assume that they set `n_trial = 0`, zero counter arrays of length `n_actions`, and `n_actions`, `len_list`, `batch_size` ≥ 1.
- `check_scalar`'s type check (epsilon must be a float) is not modelled; only the range check is. `check_array` on the context is reduced to the one-row test.
- `Bandit.LinUCB.UpdateParams` requires `1 + x A_inv_temp[a] xᵀ ≠ 0`. It always holds for the positive definite matrices the policy builds from the identity, but that is not proved. It also requires a context exactly `dim` wide: numpy would raise only after `n_trial` and `action_counts` were incremented, and that partial update is not modelled.
- `Bandit.EpsilonGreedy.UpdateParams` and `Bandit.LinUCB.UpdateParams` require `action < n_actions`. Python's negative indices into the counter arrays are not modelled.
- numpy's `np.copy` at a commit is an element-wise copy into the live arrays, so the model does not capture the rebinding of `self.A_inv` to a new array. No aliasing between the live and staged arrays exists in either form.
- `np.argsort` does not fix an order among equal scores. The model breaks ties by index, and its contracts promise only the descending-score order, distinctness, length and dominance.
- `Bandit.EpsilonGreedy.SelectAction`: with `available_items`, states only the length and that the actions are in range, not that the positional selection `predicted_rewards[available_items]` picks sensible actions.
- `Bandit.LinUCB.SelectAction`: with `available_items`, states only that the result is the positional selection and its length, not that it respects the available items.
- The four `ml_env.py` environment classes are one class with a `Variant`, since they differ only in `step`. The simulated variants require a reward model; the source would fail calling `predict` on `None`.
- Construction errors: `RecEnv.OfflineEnv.constructor` and `LegacyFairEnv.OfflineEnv.constructor` require the user pick to succeed. `History.PickUser` states the failures (empty eligible list, unknown user), which the source raises as exceptions.
- `RecEnv.OfflineEnv.Step` and `StepBatch` require every action to have a group. The source raises `KeyError` otherwise.
- `LegacyFairEnv.OfflineEnv.Step` and `StepBatch` require that `action + 1` has a group and that `users_history_lens[user - 1]` is a valid Python index. Python's negative-index wrap-around is modelled.
- `EpsilonGreedy` never commits `reward_counts`, as written, so the exploit branch ranks all-zero means (`Bandit.MeansOfZeroSums`). This is recorded as behaviour, not corrected.
- `RecEnv.OfflineEnv.constructor` requires `len(users_history_lens) == len(users_dict)`. The source zips the two lists to the shorter one in `_generate_available_users`, and then indexes `users_history_lens` by the user's key position in `step`, which raises `IndexError` for a pinned user beyond the shorter length. That unequal-length case is not modelled here; `LegacyFairEnv.OfflineEnv.constructor` does model the zip to the shorter length.
- `RecEnv.WellFormed` demands, for the fair variants, exactly `n_groups` weights, all non-negative, with a positive sum. The source only reads `fairness_constraints[group - 1]` and the sum, so a longer list, negative weights or a zero sum (a division error) are not modelled. `LegacyFairEnv.WellFormed` likewise demands non-negative weights with a positive sum.
- `get_items_names` catches every exception. The model covers the only one its body can raise, a missing key.
- `policy_name` (a timestamped string) and `device` are not modelled.

## Findings

| source | as written | input that shows it | evidently intended | confidence | as-written member | corrected member |
|---|---|---|---|---|---|---|
| src/model/recommender/bandit.py:277-279 | `np.argmax` of the filtered deficit array is returned as the action, although it is a position in the filtered array | fairness weights [0.5, 0.5], action counts [3, 0], alpha 0: the deficits are [-2, 1], the filtered array is [1], and action 0 is returned although its deficit -2 is below alpha | return the action whose deficit is the largest among those not below alpha (action 1 here) | not executed | `Bandit.FilteredArgMaxNamesWrongAction` | `Bandit.ForcedActionSpec` |

The model uses the corrected `Bandit.ForcedAction` in `Bandit.FairLinUCB.SelectAction`. The as-written function `Bandit.ForcedActionAsWritten` is what `Bandit.FilteredArgMaxNamesWrongAction` exhibits.

Two further behaviours are modelled as written because they look deliberate or harmless.

- In `ml_fair_env.py` a hit shaped to exactly 0 slides the window in a single step (`reward >= 0`) but not in a batch of that hit alone (`max(rewards) > 0`). `LegacyFairEnv.ScenarioZeroHit` exhibits this.
- The two files look up the user's history length differently:
  - `ml_env.py` by the user's position among the dict keys;
  - `ml_fair_env.py` at `user - 1`.
