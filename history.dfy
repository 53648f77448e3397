/** The logged interaction store as both environment files read it: per-user
    histories of (item, rating) pairs kept in a dict with key order, a
    parallel list of positive-history lengths, the eligibility filter, the
    initial window and the choice of the episode's user. */
module History {
  import opened Common

  /** One logged interaction: `(item, rating)` in the source's tuples. */
  datatype Interaction = Interaction(item: int, rating: int)

  /** The core's error conditions at reset and step. */
  datatype EnvError =
    | EmptyEligibleUserSet   // `np.random.choice([])` on an empty eligible list
    | UnknownUser(user: int) // `users_dict[user]` raises KeyError
    | EmptyBatch             // `max([])` on the reward list of an empty batch

  /** `{data[0]: data[1] for data in log}`: the dict built left to right,
      so a later entry for the same item overrides an earlier one. */
  function RatingsOf(log: seq<Interaction>): map<int, int>
  {
    if log == [] then map[]
    else
      var n := |log| - 1;
      RatingsOf(log[..n])[log[n].item := log[n].rating]
  }

  /** The keys of the dict are exactly the logged items, and each key maps to
      the rating of the last entry that mentions it. */
  lemma {:induction false} RatingsOfLookup(log: seq<Interaction>, i: nat)
    requires i < |log| && LastFor(log, i)
    ensures log[i].item in RatingsOf(log) && RatingsOf(log)[log[i].item] == log[i].rating
  {
    var n := |log| - 1;
    if i < n {
      assert LastFor(log[..n], i) by {
        forall j | i < j < n ensures log[..n][j].item != log[..n][i].item {
          assert log[j].item != log[i].item;
        }
      }
      RatingsOfLookup(log[..n], i);
      assert log[n].item != log[i].item;
    }
  }

  lemma {:induction false} RatingsOfKeys(log: seq<Interaction>, it: int)
    ensures it in RatingsOf(log) <==> exists i :: 0 <= i < |log| && log[i].item == it
  {
    if log != [] {
      var n := |log| - 1;
      RatingsOfKeys(log[..n], it);
      if exists i :: 0 <= i < n && log[..n][i].item == it {
        var i :| 0 <= i < n && log[..n][i].item == it;
        assert log[i].item == it;
      }
      if exists i :: 0 <= i < |log| && log[i].item == it {
        var i :| 0 <= i < |log| && log[i].item == it;
        if i < n {
          assert log[..n][i].item == it;
        }
      }
    }
  }

  /** No later entry of `log` is about the same item as entry `i`. */
  predicate LastFor(log: seq<Interaction>, i: nat)
    requires i < |log|
  {
    forall j :: i < j < |log| ==> log[j].item != log[i].item
  }

  /** `[data[0] for data in log[:state_size]]`. */
  function InitialWindow(log: seq<Interaction>, stateSize: nat): seq<int>
  {
    seq(Min(|log|, stateSize), i requires 0 <= i < Min(|log|, stateSize) => log[i].item)
  }

  /** The window of an episode whose user has logged at least `stateSize`
      items stays exactly `stateSize` wide. */
  predicate FullWindow(log: seq<Interaction>, stateSize: nat, items: seq<int>)
  {
    stateSize >= 1 && |log| >= stateSize ==> |items| == stateSize
  }

  /** A batch keeps a full window full: `(items[k:] + hits)[-state_size:]`. */
  lemma BatchKeepsFullWindow(log: seq<Interaction>, stateSize: nat, items: seq<int>, rewards: seq<real>, hits: seq<int>)
    requires FullWindow(log, stateSize, items)
    ensures FullWindow(log, stateSize, BatchWindow(items, rewards, hits, stateSize))
  {
    if stateSize >= 1 && |log| >= stateSize {
      BatchWindowShape(items, rewards, hits, stateSize);
    }
  }

  /** The set of the window's items, `set(self.items)`. */
  function ItemSet(items: seq<int>): set<int>
  {
    set x | x in items
  }

  // ---------------------------------------------------------------------------
  // _generate_available_users
  // ---------------------------------------------------------------------------

  /** Reference definition: the keys whose paired history length exceeds
      `stateSize`, in key order (`keys` and `lens` paired position by position). */
  function Eligible(keys: seq<int>, lens: seq<int>, stateSize: nat): seq<int>
    requires |keys| == |lens|
  {
    if keys == [] then []
    else
      var n := |keys| - 1;
      var rest := Eligible(keys[..n], lens[..n], stateSize);
      if lens[n] > stateSize then rest + [keys[n]] else rest
  }

  /** A user is eligible exactly when some paired position carries it with a
      history longer than `stateSize`. */
  lemma {:induction false} EligibleMembers(keys: seq<int>, lens: seq<int>, stateSize: nat, u: int)
    requires |keys| == |lens|
    ensures u in Eligible(keys, lens, stateSize)
            <==> exists i :: 0 <= i < |keys| && keys[i] == u && lens[i] > stateSize
  {
    if keys != [] {
      var n := |keys| - 1;
      EligibleMembers(keys[..n], lens[..n], stateSize, u);
      if u in Eligible(keys[..n], lens[..n], stateSize) {
        var i :| 0 <= i < n && keys[..n][i] == u && lens[..n][i] > stateSize;
        assert keys[i] == u && lens[i] > stateSize;
      }
      if exists i :: 0 <= i < |keys| && keys[i] == u && lens[i] > stateSize {
        var i :| 0 <= i < |keys| && keys[i] == u && lens[i] > stateSize;
        if i < n {
          assert keys[..n][i] == u && lens[..n][i] > stateSize;
        }
      }
    }
  }

  /** `_generate_available_users`: walks `zip(users_dict.keys(), users_history_lens)`
      (so only the shorter of the two lengths) and keeps the keys whose
      length is greater than `stateSize`. */
  method GenerateAvailableUsers(keys: seq<int>, lens: seq<int>, stateSize: nat) returns (users: seq<int>)
    ensures var n := Min(|keys|, |lens|); users == Eligible(keys[..n], lens[..n], stateSize)
    ensures forall u :: u in users <==>
              exists i :: 0 <= i < Min(|keys|, |lens|) && keys[i] == u && lens[i] > stateSize
  {
    var n := Min(|keys|, |lens|);
    users := [];
    var i := 0;
    while i < n
      invariant 0 <= i <= n
      invariant users == Eligible(keys[..i], lens[..i], stateSize)
    {
      assert keys[..i + 1][..i] == keys[..i] && lens[..i + 1][..i] == lens[..i];
      if lens[i] > stateSize {
        users := users + [keys[i]];
      }
      i := i + 1;
    }
    forall u ensures u in users <==> exists i :: 0 <= i < n && keys[i] == u && lens[i] > stateSize {
      EligibleMembers(keys[..n], lens[..n], stateSize, u);
      if exists i :: 0 <= i < n && keys[i] == u && lens[i] > stateSize {
        var i :| 0 <= i < n && keys[i] == u && lens[i] > stateSize;
        assert keys[..n][i] == u && lens[..n][i] > stateSize;
      }
    }
  }

  // ---------------------------------------------------------------------------
  // Choosing the episode's user
  // ---------------------------------------------------------------------------

  /** `fix_user_id if fix_user_id else ...`: Python truthiness, so a pinned
      id of 0 counts as "not pinned". */
  predicate Pinned(fixUser: Option<int>)
  {
    fixUser.Some? && fixUser.value != 0
  }

  /** The user an episode starts with: the pinned user, or the eligible user
      at the caller-supplied random position `draw`; fails when the eligible
      list is empty or the chosen id has no logged history. */
  function PickUser(fixUser: Option<int>, available: seq<int>, logs: map<int, seq<Interaction>>, draw: nat): (r: Result<int, EnvError>)
    requires !Pinned(fixUser) && available != [] ==> draw < |available|
    ensures r.Success? ==> r.value in logs
    ensures Pinned(fixUser) ==> r == (if fixUser.value in logs then Success(fixUser.value) else Failure(UnknownUser(fixUser.value)))
    ensures !Pinned(fixUser) && available == [] ==> r == Failure(EmptyEligibleUserSet)
    ensures !Pinned(fixUser) && available != [] && available[draw] in logs ==> r == Success(available[draw])
  {
    if !Pinned(fixUser) && available == [] then Failure(EmptyEligibleUserSet)
    else
      var u := if Pinned(fixUser) then fixUser.value else available[draw];
      if u in logs then Success(u) else Failure(UnknownUser(u))
  }

  /** `list.index`: the first position holding `x`. */
  function IndexOf(s: seq<int>, x: int): (i: nat)
    requires x in s
    ensures i < |s| && s[i] == x
    ensures forall j :: 0 <= j < i ==> s[j] != x
  {
    if s[0] == x then 0 else 1 + IndexOf(s[1..], x)
  }
}
