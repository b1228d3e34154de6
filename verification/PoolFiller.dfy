/** The throttled robot-pool filler (scripts/drive_sa_pool.py, fill_pool).

    The clock and IAM's speed are a `World` that behaves as it likes, within these bounds: the clock never goes
    back, a sleep lasts at least as long as asked. What IAM, the cipher and the database answer in each round is an
    input; an operation that fails has no effect. Times are seconds as reals.
  */
module PoolFiller {
  import opened Common

  const DELAY := 20.1
  const MINUTE := 60.0

  /** One call of create_robot: the clock reading before it, the instant IAM creates the account, its return. */
  datatype Creation = Creation(reading: real, instant: real, done: real)

  // ---------------------------------------------------------------- the throttle

  /** The creations of a run follow each other, and the readings before them are set apart by the delay. */
  predicate Throttled(creations: seq<Creation>) {
    && (forall i :: 0 <= i < |creations| ==> creations[i].reading <= creations[i].instant <= creations[i].done)
    && (forall i :: 0 <= i < |creations| - 1 ==> Follows(creations[i], creations[i + 1]))
  }

  predicate Follows(c: Creation, d: Creation) {
    c.done <= d.reading && c.reading + DELAY <= d.reading
  }

  /** No creation comes more than `latency` after the reading before it. */
  predicate Prompt(creations: seq<Creation>, latency: real) {
    forall i :: 0 <= i < |creations| ==> creations[i].instant <= creations[i].reading + latency
  }

  function Readings(creations: seq<Creation>): seq<real> {
    seq(|creations|, i requires 0 <= i < |creations| => creations[i].reading)
  }

  function Instants(creations: seq<Creation>): seq<real> {
    seq(|creations|, i requires 0 <= i < |creations| => creations[i].instant)
  }

  predicate Within(time: real, start: real) {
    start <= time < start + MINUTE
  }

  /** How many of the times fall in the minute from `start`. */
  function CountWithin(times: seq<real>, start: real): nat {
    if times == [] then 0
    else CountWithin(times[..|times| - 1], start) + if Within(times[|times| - 1], start) then 1 else 0
  }

  /** Each time is at least a minute after the one three places before it. */
  predicate Spread(times: seq<real>) {
    && (forall i, k :: 0 <= i <= k < |times| ==> times[i] <= times[k])
    && (forall i :: 0 <= i < |times| - 3 ==> times[i] + MINUTE <= times[i + 3])
  }

  lemma {:induction false} NoneWithin(times: seq<real>, start: real)
    requires forall i :: 0 <= i < |times| ==> times[i] < start
    ensures CountWithin(times, start) == 0
    decreases |times|
  {
    if times == [] {
    } else {
      NoneWithin(times[..|times| - 1], start);
    }
  }

  lemma {:induction false} CountAtMostLength(times: seq<real>, start: real)
    ensures CountWithin(times, start) <= |times|
    decreases |times|
  {
    if times == [] {
    } else {
      CountAtMostLength(times[..|times| - 1], start);
    }
  }

  lemma {:induction false} SpreadIsThreeAMinute(times: seq<real>, start: real)
    requires Spread(times)
    ensures CountWithin(times, start) <= 3
    decreases |times|
  {
    var n := |times|;
    if n <= 3 {
      CountAtMostLength(times, start);
    } else if Within(times[n - 1], start) {
      assert times[n - 4] + MINUTE <= times[n - 4 + 3];
      NoneWithin(times[..n - 3], start);
      assert times[..n - 1][..n - 2] == times[..n - 2] && times[..n - 2][..n - 3] == times[..n - 3];
      assert CountWithin(times[..n - 2], start) <= 1;
      assert CountWithin(times[..n - 1], start) <= 2;
    } else {
      assert Spread(times[..n - 1]);
      SpreadIsThreeAMinute(times[..n - 1], start);
      assert CountWithin(times, start) == CountWithin(times[..n - 1], start);
    }
  }

  lemma {:induction false} InOrder(creations: seq<Creation>, i: nat, k: nat)
    requires Throttled(creations) && i < k < |creations|
    ensures creations[i].done <= creations[k].reading
    decreases k
  {
    assert Follows(creations[k - 1], creations[k]);
    if i < k - 1 {
      InOrder(creations, i, k - 1);
    }
  }

  lemma Sorted(creations: seq<Creation>)
    requires Throttled(creations)
    ensures forall i, k :: 0 <= i <= k < |creations| ==>
              creations[i].reading <= creations[k].reading && creations[i].instant <= creations[k].instant
  {
    forall i, k | 0 <= i < k < |creations|
      ensures creations[i].done <= creations[k].reading
    {
      InOrder(creations, i, k);
    }
  }

  lemma ThreeApart(creations: seq<Creation>, i: nat)
    requires Throttled(creations) && i + 3 < |creations|
    ensures creations[i].reading + 60.3 <= creations[i + 3].reading
  {
    assert Follows(creations[i], creations[i + 1]);
    assert Follows(creations[i + 1], creations[i + 1 + 1]);
    assert Follows(creations[i + 2], creations[i + 2 + 1]);
  }

  /** At most three calls of create_robot start in any 60 seconds. */
  lemma AtMostThreeCallsAMinute(creations: seq<Creation>, start: real)
    requires Throttled(creations)
    ensures CountWithin(Readings(creations), start) <= 3
  {
    Sorted(creations);
    forall i | 0 <= i < |creations| - 3
      ensures creations[i].reading + MINUTE <= creations[i + 3].reading
    {
      ThreeApart(creations, i);
    }
    SpreadIsThreeAMinute(Readings(creations), start);
  }

  lemma AtMostThreePromptCreations(creations: seq<Creation>, latency: real, start: real)
    requires Throttled(creations) && Prompt(creations, latency) && latency <= 0.3
    ensures CountWithin(Instants(creations), start) <= 3
  {
    Sorted(creations);
    forall i | 0 <= i < |creations| - 3
      ensures creations[i].instant + MINUTE <= creations[i + 3].instant
    {
      ThreeApart(creations, i);
    }
    SpreadIsThreeAMinute(Instants(creations), start);
  }

  ghost predicate KeepsToThree(latency: real) {
    forall creations, start :: Throttled(creations) && Prompt(creations, latency) ==>
      CountWithin(Instants(creations), start) <= 3
  }

  /** The delay leaves 0.3 seconds: that IAM creates at most three accounts in any 60 seconds is guaranteed
      exactly when it creates each within that time of the reading. */
  lemma ThreeAMinuteExactlyWhenPrompt(latency: real)
    requires 0.0 <= latency
    ensures KeepsToThree(latency) <==> latency <= 0.3
  {
    if latency <= 0.3 {
      forall creations, start | Throttled(creations) && Prompt(creations, latency)
        ensures CountWithin(Instants(creations), start) <= 3
      {
        AtMostThreePromptCreations(creations, latency, start);
      }
    } else {
      var late := if latency <= 1.0 then latency else 1.0;
      var creations := [Creation(0.0, late, late), Creation(20.1, 20.1, 20.1),
                        Creation(40.2, 40.2, 40.2), Creation(60.3, 60.3, 60.3)];
      assert Throttled(creations) && Prompt(creations, latency);
      assert Instants(creations) == [late, 20.1, 40.2, 60.3];
      FourWithin(late);
    }
  }

  lemma FourWithin(late: real)
    requires 0.3 < late <= 1.0
    ensures CountWithin([late, 20.1, 40.2, 60.3], late) == 4
  {
    var times := [late, 20.1, 40.2, 60.3];
    assert times[..3] == [late, 20.1, 40.2] && times[..3][..2] == [late, 20.1] && times[..3][..2][..1] == [late];
    assert [late][..0] == [];
    assert Within(late, late) && Within(20.1, late) && Within(40.2, late) && Within(60.3, late);
    assert CountWithin([late], late) == 1;
    assert CountWithin(times[..3], late) == CountWithin(times[..3][..2], late) + 1;
  }

  // ---------------------------------------------------------------- what becomes of the keys

  /** What a round meets, as far as it gets: whether a key is obtained, building its row succeeds, the commit does, the
      rollback after a failed commit does, and the deletion of the key after that. */
  datatype Answer = Answer(obtained: bool, built: bool, committed: bool, rolledBack: bool, deleted: bool)

  /** What became of a key that IAM handed out. */
  datatype Fate = InHand | Stored | Deleted | Reported

  /** IamFailed and Raised are errors that are passed on: of create_robot, and of building a row or of a rollback. */
  datatype Outcome = Filled(count: int) | PoolError(code: string) | IamFailed | Raised

  function FateOf(answer: Answer): Fate {
    if !answer.built then InHand
    else if answer.committed then Stored
    else if !answer.rolledBack then InHand
    else if answer.deleted then Deleted
    else Reported
  }

  /** How a round ends the run; None if the next one follows. */
  function EndOf(answer: Answer): Option<Outcome> {
    if !answer.obtained then Some(IamFailed)
    else match FateOf(answer)
      case InHand => Some(Raised)
      case Stored => None
      case _ => Some(PoolError("pool_store_failed"))
  }

  /** The fates of the keys obtained from round `k` on. */
  function FatesFrom(answers: nat -> Answer, k: nat, count: nat): seq<Fate>
    decreases count - k
  {
    if k >= count || !answers(k).obtained then []
    else [FateOf(answers(k))] + if EndOf(answers(k)).None? then FatesFrom(answers, k + 1, count) else []
  }

  /** How the run ends that comes to round `k`. */
  function OutcomeFrom(answers: nat -> Answer, k: nat, count: nat): Outcome
    decreases count - k
  {
    if k >= count then Filled(count)
    else if EndOf(answers(k)).Some? then EndOf(answers(k)).value
    else OutcomeFrom(answers, k + 1, count)
  }

  function StoredIn(fates: seq<Fate>): nat {
    if fates == [] then 0 else (if fates[0].Stored? then 1 else 0) + StoredIn(fates[1..])
  }

  /** Every key is stored, deleted or reported. */
  predicate Accounted(fates: seq<Fate>) {
    forall i :: 0 <= i < |fates| ==> !fates[i].InHand?
  }

  /** A key is obtained and lost: building its row raises, or its commit fails and the rollback raises. */
  predicate Loses(answer: Answer) {
    answer.obtained && (!answer.built || (!answer.committed && !answer.rolledBack))
  }

  /** The rounds from `j` up to `k` store their keys, so that round `k` comes. */
  predicate Reached(answers: nat -> Answer, j: nat, k: nat) {
    forall i: nat :: j <= i < k ==> answers(i).obtained && answers(i).built && answers(i).committed
  }

  /** No round that comes loses its key. */
  predicate NeverLoses(answers: nat -> Answer, j: nat, count: nat) {
    forall k: nat :: j <= k < count && Reached(answers, j, k) ==> !Loses(answers(k))
  }

  lemma NeverLosesNext(answers: nat -> Answer, j: nat, count: nat)
    requires j < count
    ensures NeverLoses(answers, j, count) <==>
            !Loses(answers(j)) && (Reached(answers, j, j + 1) ==> NeverLoses(answers, j + 1, count))
  {
    assert Reached(answers, j, j);
    if Reached(answers, j, j + 1) {
      forall k: nat | j + 1 <= k < count
        ensures Reached(answers, j, k) <==> Reached(answers, j + 1, k)
      {}
    }
  }

  lemma AccountedNext(fate: Fate, rest: seq<Fate>)
    ensures Accounted([fate] + rest) <==> !fate.InHand? && Accounted(rest)
  {
    var fates := [fate] + rest;
    assert fates[0] == fate && forall i :: 0 <= i < |rest| ==> fates[i + 1] == rest[i];
  }

  lemma {:induction false} AccountedFrom(answers: nat -> Answer, j: nat, count: nat)
    ensures Accounted(FatesFrom(answers, j, count)) <==> NeverLoses(answers, j, count)
    decreases count - j
  {
    if j >= count {
    } else {
      NeverLosesNext(answers, j, count);
      AccountedFrom(answers, j + 1, count);
      if answers(j).obtained {
        AccountedNext(FateOf(answers(j)), if EndOf(answers(j)).None? then FatesFrom(answers, j + 1, count) else []);
      }
      assert Reached(answers, j, j + 1) <==> answers(j).obtained && answers(j).built && answers(j).committed;
    }
  }

  /** Every key obtained is stored, deleted or reported if and only if, in no round that comes, building a row raises
      or the rollback after a failed commit does. */
  lemma AccountedExactlyWhen(answers: nat -> Answer, count: nat)
    ensures Accounted(FatesFrom(answers, 0, count)) <==>
            forall k: nat :: k < count && Reached(answers, 0, k) ==> !Loses(answers(k))
    ensures NeverLoses(answers, 0, count) <==>
            forall k: nat :: k < count && Reached(answers, 0, k) ==> !Loses(answers(k))
  {
    AccountedFrom(answers, 0, count);
  }

  /** A run in which the first row cannot be built: its key is left in nobody's hands. */
  lemma FailedBuildLosesKey(committed: bool, rolledBack: bool, deleted: bool)
    ensures var answers: nat -> Answer := _ => Answer(true, false, committed, rolledBack, deleted);
            FatesFrom(answers, 0, 1) == [InHand] && OutcomeFrom(answers, 0, 1) == Raised
  {}

  /** A run in which the first commit fails and its rollback raises: the deletion of the key is never tried. */
  lemma FailedRollbackLosesKey(deleted: bool)
    ensures var answers: nat -> Answer := _ => Answer(true, true, false, false, deleted);
            FatesFrom(answers, 0, 1) == [InHand] && OutcomeFrom(answers, 0, 1) == Raised
  {}

  /** Only the last key of a run can be other than stored; the run is filled exactly when all its keys are. */
  lemma {:induction false} StoredUpToTheLast(answers: nat -> Answer, k: nat, count: nat)
    requires k <= count
    ensures var fates := FatesFrom(answers, k, count);
            && |fates| <= count - k && (forall i :: 0 <= i < |fates| - 1 ==> fates[i].Stored?)
            && StoredIn(fates) <= |fates|
            && (OutcomeFrom(answers, k, count).Filled? <==> StoredIn(fates) == count - k)
    decreases count - k
  {
    if k == count {
    } else {
      StoredUpToTheLast(answers, k + 1, count);
      var fates, rest := FatesFrom(answers, k, count), FatesFrom(answers, k + 1, count);
      if answers(k).obtained && EndOf(answers(k)).None? {
        assert fates[1..] == rest;
        assert forall i :: 0 < i < |fates| ==> fates[i] == rest[i - 1];
      } else if answers(k).obtained {
        assert fates == [FateOf(answers(k))] && fates[1..] == [];
        assert StoredIn(fates[1..]) == 0;
      }
    }
  }

  // ---------------------------------------------------------------- the world

  class World {
    var now: real
    /** The calls of create_robot, in order. */
    var creations: seq<Creation>
    /** The keys obtained, in order, each with its fate. */
    var fates: seq<Fate>

    method Clock() returns (reading: real)
      modifies this`now
      ensures old(now) <= reading == now
    {
      var passed :| passed >= 0.0;
      now := now + passed;
      reading := now;
    }

    method Sleep(delay: real)
      requires delay > 0.0
      modifies this`now
      ensures old(now) + delay <= now
    {
      var extra :| extra >= 0.0;
      now := now + delay + extra;
    }

    /** IAM creates an account at some instant; its key arrives, or an error does. */
    method CreateRobot(reading: real, obtained: bool)
      requires reading <= now
      modifies this
      ensures exists creation: Creation ::
                && creation.reading == reading && reading <= creation.instant <= creation.done == now
                && creations == old(creations) + [creation]
      ensures fates == if obtained then old(fates) + [InHand] else old(fates)
    {
      var before, after :| before >= 0.0 && after >= 0.0;
      var creation := Creation(reading, now + before, now + before + after);
      creations := creations + [creation];
      now := creation.done;
      if obtained {
        fates := fates + [InHand];
      }
    }

    /** The last key is stored, deleted or reported. */
    method Settle(fate: Fate)
      requires fates != []
      modifies this`fates
      ensures fates == old(fates)[|old(fates)| - 1 := fate]
    {
      fates := fates[|fates| - 1 := fate];
    }
  }

  // ---------------------------------------------------------------- filling

  lemma ThrottledOneMore(creations: seq<Creation>, creation: Creation)
    requires Throttled(creations) && creation.reading <= creation.instant <= creation.done
    requires creations != [] ==> Follows(creations[|creations| - 1], creation)
    ensures Throttled(creations + [creation])
  {}

  /** The delayed call of create_robot. */
  method ThrottledCreation(world: World, obtained: bool, ghost run: seq<Creation>, last: Option<real>)
    returns (reading: real, ghost creation: Creation)
    requires Throttled(run) && (run == [] ==> last == None)
    requires run != [] ==> last == Some(run[|run| - 1].reading) && run[|run| - 1].done <= world.now
    modifies world
    ensures world.creations == old(world.creations) + [creation] && Throttled(run + [creation])
    ensures creation.reading == reading && creation.done <= world.now
    ensures world.fates == if obtained then old(world.fates) + [InHand] else old(world.fates)
  {
    if last.Some? {
      var before := world.Clock();
      var delay := DELAY - (before - last.value);
      if delay > 0.0 {
        world.Sleep(delay);
      }
    }
    reading := world.Clock();
    ghost var previous := world.creations;
    world.CreateRobot(reading, obtained);
    creation :| creation.reading == reading && reading <= creation.instant <= creation.done == world.now
                && world.creations == previous + [creation];
    ThrottledOneMore(run, creation);
  }

  /** What becomes of a key just obtained; an outcome ends the run. */
  method StoreKey(world: World, answer: Answer) returns (ended: Option<Outcome>)
    requires world.fates != [] && world.fates[|world.fates| - 1] == InHand && answer.obtained
    modifies world`fates
    ensures world.fates == old(world.fates)[|old(world.fates)| - 1 := FateOf(answer)]
    ensures ended == EndOf(answer)
  {
    if !answer.built {
      return Some(Raised);
    }
    if answer.committed {
      world.Settle(Stored);
      return None;
    }
    if !answer.rolledBack {
      return Some(Raised);
    }
    if answer.deleted {
      world.Settle(Deleted);
    } else {
      world.Settle(Reported);
    }
    return Some(PoolError("pool_store_failed"));
  }

  /** The rounds up to `k` have gone well; `rest` is what the run still does to the keys. */
  ghost predicate Progress(answers: nat -> Answer, start: seq<Fate>, fates: seq<Fate>, k: nat, count: nat) {
    && start + FatesFrom(answers, 0, count) == fates + FatesFrom(answers, k, count)
    && OutcomeFrom(answers, 0, count) == OutcomeFrom(answers, k, count)
  }

  lemma OneMoreRound(answers: nat -> Answer, start: seq<Fate>, fates: seq<Fate>, k: nat, count: nat)
    requires Progress(answers, start, fates, k, count) && k < count
    ensures var answer := answers(k);
            var fates' := if answer.obtained then fates + [FateOf(answer)] else fates;
            if EndOf(answer).None? then Progress(answers, start, fates', k + 1, count)
            else fates' == start + FatesFrom(answers, 0, count) && EndOf(answer) == Some(OutcomeFrom(answers, 0, count))
  {
    var answer := answers(k);
    if answer.obtained && EndOf(answer).None? {
      var rest := FatesFrom(answers, k + 1, count);
      assert fates + ([FateOf(answer)] + rest) == fates + [FateOf(answer)] + rest;
    } else if answer.obtained {
      assert FatesFrom(answers, k, count) == [FateOf(answer)];
    } else {
      assert fates + [] == fates;
    }
  }

  /** One round of the loop; an outcome ends the run. */
  method CreateOne(world: World, answer: Answer, ghost run: seq<Creation>, last: Option<real>)
    returns (reading: real, ended: Option<Outcome>, ghost creation: Creation)
    requires Throttled(run) && (run == [] ==> last == None)
    requires run != [] ==> last == Some(run[|run| - 1].reading) && run[|run| - 1].done <= world.now
    modifies world
    ensures world.creations == old(world.creations) + [creation] && Throttled(run + [creation])
    ensures creation.reading == reading && creation.done <= world.now
    ensures world.fates == if answer.obtained then old(world.fates) + [FateOf(answer)] else old(world.fates)
    ensures ended == EndOf(answer)
  {
    reading, creation := ThrottledCreation(world, answer.obtained, run, last);
    if answer.obtained {
      ended := StoreKey(world, answer);
    } else {
      ended := Some(IamFailed);
    }
  }

  /** What the arguments and the quotas allow. */
  function Refusal(validProject: bool, count: int, quota: int, limit: int, occupied: nat): Option<Outcome> {
    if !validProject then Some(PoolError("invalid_project"))
    else if count < 1 || count > quota then Some(PoolError("invalid_count"))
    else if occupied + count > limit then Some(PoolError("project_quota_exceeded"))
    else None
  }

  /** `projectQuota` is the quota in the project's row, if it has one; `occupied` counts its identities. */
  method FillPool(world: World, validProject: bool, count: int, quota: int, projectQuota: Option<int>, occupied: nat,
                  answers: nat -> Answer)
    returns (outcome: Outcome, ghost run: seq<Creation>, ghost keys: seq<Fate>)
    modifies world
    ensures world.creations == old(world.creations) + run && Throttled(run)
    ensures world.fates == old(world.fates) + keys
    ensures var limit := if projectQuota.Some? then projectQuota.value else quota;
            var refusal := Refusal(validProject, count, quota, limit, occupied);
            && (refusal.Some? ==> outcome == refusal.value && run == [] && keys == [])
            && (refusal.None? ==> count >= 1 && keys == FatesFrom(answers, 0, count)
                                  && outcome == OutcomeFrom(answers, 0, count) && |run| <= count
                                  && (Accounted(keys) <==> NeverLoses(answers, 0, count)))
            && (StoredIn(keys) > 0 ==> occupied + StoredIn(keys) <= limit)
    ensures outcome.Filled? <==> count >= 1 && StoredIn(keys) == count
  {
    run, keys := [], [];
    assert old(world.fates) + [] == old(world.fates);
    if !validProject {
      return PoolError("invalid_project"), run, keys;
    }
    if count < 1 || count > quota {
      return PoolError("invalid_count"), run, keys;
    }
    var limit := if projectQuota.Some? then projectQuota.value else quota;
    if occupied + count > limit {
      return PoolError("project_quota_exceeded"), run, keys;
    }
    keys := FatesFrom(answers, 0, count);
    StoredUpToTheLast(answers, 0, count);
    AccountedExactlyWhen(answers, count);
    var last: Option<real> := None;
    for made := 0 to count
      invariant world.creations == old(world.creations) + run && Throttled(run) && |run| == made
      invariant run == [] ==> last == None
      invariant run != [] ==> last == Some(run[|run| - 1].reading) && run[|run| - 1].done <= world.now
      invariant Progress(answers, old(world.fates), world.fates, made, count)
    {
      OneMoreRound(answers, old(world.fates), world.fates, made, count);
      var reading, ended, creation := CreateOne(world, answers(made), run, last);
      run := run + [creation];
      last := Some(reading);
      if ended.Some? {
        return ended.value, run, keys;
      }
    }
    assert world.fates + [] == world.fates;
    return Filled(count), run, keys;
  }
}
