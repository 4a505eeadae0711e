/** Transactions that lock stock_balances rows one after another and hold them to the end. The rows are those of
    one tenant; rows of different tenants never meet. */
module Deadlock {
  import opened Common
  import opened LockOrder

  /** One transaction: the rows it locks, in order, how many it holds, and whether it has ended. */
  datatype Job = Job(plan: seq<RowKey>, held: nat, done: bool)

  type State = seq<Job>

  /** What the stock repository locks: one row for ApplyDelta, two for TransferDelta, none when both are the same
      warehouse. */
  datatype Primitive = ApplyDelta(row: RowKey) | TransferDelta(src: string, dst: string, product: string)

  function PlanOf(op: Primitive): seq<RowKey> {
    match op
    case ApplyDelta(row) => [row]
    case TransferDelta(src, dst, product) =>
      if src == dst then []
      else
        var (first, second) := OrderedWarehouseProduct(RowKey(src, product), RowKey(dst, product));
        [first, second]
  }

  ghost predicate Increasing(plan: seq<RowKey>) {
    forall i, j :: 0 <= i < j < |plan| ==> LessWarehouseProduct(plan[i], plan[j])
  }

  lemma PlansAreIncreasing(op: Primitive)
    ensures Increasing(PlanOf(op))
  {
    if op.TransferDelta? {
      OrderedIsSymmetric(RowKey(op.src, op.product), RowKey(op.dst, op.product));
    }
  }

  // ---- Steps --------------------------------------------------------------------------------

  predicate Holds(j: Job, k: RowKey) {
    !j.done && j.held <= |j.plan| && k in j.plan[..j.held]
  }

  predicate Wanting(j: Job) {
    !j.done && j.held < |j.plan|
  }

  function Wanted(j: Job): RowKey
    requires Wanting(j)
  {
    j.plan[j.held]
  }

  ghost predicate Blocked(s: State, i: nat) {
    i < |s| && Wanting(s[i]) && exists j :: 0 <= j < |s| && j != i && Holds(s[j], Wanted(s[i]))
  }

  /** `i` waits for a row that `j` holds. */
  predicate WaitsFor(s: State, i: nat, j: nat) {
    i < |s| && j < |s| && i != j && Wanting(s[i]) && Holds(s[j], Wanted(s[i]))
  }

  /** A transaction that has not ended and is not waiting locks its next row, or ends when it has all of them. */
  ghost predicate CanStep(s: State, i: nat) {
    i < |s| && !s[i].done && !Blocked(s, i)
  }

  ghost predicate Step(s: State, s': State, i: nat) {
    && CanStep(s, i)
    && s' == if Wanting(s[i]) then s[i := s[i].(held := s[i].held + 1)] else s[i := s[i].(done := true)]
  }

  ghost predicate WellFormed(s: State) {
    forall i :: 0 <= i < |s| ==> s[i].held <= |s[i].plan|
  }

  ghost predicate Ordered(s: State) {
    WellFormed(s) && forall i :: 0 <= i < |s| ==> Increasing(s[i].plan)
  }

  predicate Finished(s: State) {
    forall i :: 0 <= i < |s| ==> s[i].done
  }

  function Start(ops: seq<Primitive>): State {
    seq(|ops|, i requires 0 <= i < |ops| => Job(PlanOf(ops[i]), 0, false))
  }

  // ---- Ordered plans -----------------------------------------------------------------------------

  /** Whoever holds a row and waits, waits for a later row. */
  lemma WaitsForLater(s: State, i: nat, j: nat)
    requires Ordered(s) && WaitsFor(s, i, j) && Wanting(s[j])
    ensures LessWarehouseProduct(Wanted(s[i]), Wanted(s[j]))
  {
    var x :| 0 <= x < s[j].held && s[j].plan[..s[j].held][x] == Wanted(s[i]);
    assert s[j].plan[x] == Wanted(s[i]);
  }

  /** Progress: while a transaction is unfinished, some transaction can step. */
  lemma SomeoneCanStep(s: State)
    requires Ordered(s) && !Finished(s)
    ensures exists i :: CanStep(s, i)
  {
    if forall i :: !CanStep(s, i) {
      var wanted := set i | 0 <= i < |s| && Wanting(s[i]) :: Wanted(s[i]);
      var u :| 0 <= u < |s| && !s[u].done;
      assert !CanStep(s, u);
      assert Wanted(s[u]) in wanted;
      var last := LastKey(wanted);
      var i :| 0 <= i < |s| && Wanting(s[i]) && Wanted(s[i]) == last;
      assert !CanStep(s, i);
      var j :| 0 <= j < |s| && j != i && Holds(s[j], last);
      assert !CanStep(s, j);
      WaitsForLater(s, i, j);
      assert Wanted(s[j]) in wanted;
    }
  }

  ghost predicate WaitPath(s: State, path: seq<nat>) {
    |path| >= 2 && forall n :: 0 <= n < |path| - 1 ==> WaitsFor(s, path[n], path[n + 1])
  }

  lemma {:induction false} WantedGrows(s: State, path: seq<nat>, n: nat)
    requires Ordered(s) && WaitPath(s, path) && 0 < n < |path| - 1
    requires WaitsFor(s, path[0], path[1]) && WaitsFor(s, path[n], path[n + 1])
    ensures LessWarehouseProduct(Wanted(s[path[0]]), Wanted(s[path[n]]))
  {
    assert WaitsFor(s, path[n - 1], path[n]) && WaitsFor(s, path[n], path[n + 1]);
    WaitsForLater(s, path[n - 1], path[n]);
    if n > 1 {
      WantedGrows(s, path, n - 1);
      LessIsTransitive(Wanted(s[path[0]]), Wanted(s[path[n - 1]]), Wanted(s[path[n]]));
    }
  }

  /** The wait-for graph has no cycle. */
  lemma NoWaitCycle(s: State, path: seq<nat>)
    requires Ordered(s) && WaitPath(s, path)
    ensures path[0] != path[|path| - 1]
  {
    var n := |path| - 2;
    assert WaitsFor(s, path[0], path[1]) && WaitsFor(s, path[n], path[n + 1]);
    if path[0] == path[n + 1] {
      WaitsForLater(s, path[n], path[0]);
      LessIsTrichotomous(Wanted(s[path[n]]), Wanted(s[path[0]]));
      if n > 0 {
        WantedGrows(s, path, n);
      }
    }
  }

  // ---- Runs -------------------------------------------------------------------------------------------

  function Left(s: State): nat
  {
    if s == [] then 0
    else
      var j := s[|s| - 1];
      Left(s[..|s| - 1]) + (if j.done then 0 else 1 + if j.held < |j.plan| then |j.plan| - j.held else 0)
  }

  lemma {:induction false} LeftAfterUpdate(s: State, i: nat, j: Job)
    requires i < |s|
    ensures Left(s[i := j]) - Left([j]) == Left(s) - Left([s[i]])
  {
    var n := |s| - 1;
    assert [j][..0] == [] && [s[i]][..0] == [];
    if i == n {
      assert s[i := j][..n] == s[..n];
    } else {
      assert s[i := j][..n] == s[..n][i := j];
      LeftAfterUpdate(s[..n], i, j);
    }
  }

  /** Every step keeps the plans ordered and the work that is left goes down, so every schedule ends. */
  lemma StepDecreases(s: State, s': State, i: nat)
    requires Ordered(s) && Step(s, s', i)
    ensures Ordered(s') && Left(s') < Left(s)
  {
    var j := s'[i];
    assert s' == s[i := j];
    assert [j][..0] == [] && [s[i]][..0] == [];
    LeftAfterUpdate(s, i, j);
  }

  /** `schedule[n]` is the transaction that makes step `n`. */
  ghost predicate Run(states: seq<State>, schedule: seq<nat>) {
    && |states| == |schedule| + 1
    && forall n :: 0 <= n < |schedule| ==> Step(states[n], states[n + 1], schedule[n])
  }

  lemma {:induction false} RunIsBounded(states: seq<State>, schedule: seq<nat>)
    requires Run(states, schedule) && Ordered(states[0])
    ensures Ordered(states[|schedule|]) && |schedule| + Left(states[|schedule|]) <= Left(states[0])
  {
    var n := |schedule|;
    if n > 0 {
      RunIsBounded(states[..n], schedule[..n - 1]);
      StepDecreases(states[n - 1], states[n], schedule[n - 1]);
    }
  }

  /** No two transactions ever hold the same row. */
  ghost predicate Exclusive(s: State) {
    forall i, j, k :: 0 <= i < j < |s| ==> !(Holds(s[i], k) && Holds(s[j], k))
  }

  lemma StepKeepsExclusive(s: State, s': State, i: nat)
    requires WellFormed(s) && Exclusive(s) && Step(s, s', i)
    ensures WellFormed(s') && Exclusive(s')
  {
    if Wanting(s[i]) {
      var k := Wanted(s[i]);
      assert s[i].plan[..s[i].held + 1] == s[i].plan[..s[i].held] + [k];
      assert forall q :: Holds(s'[i], q) <==> Holds(s[i], q) || q == k;
      assert forall j :: 0 <= j < |s| && j != i ==> !Holds(s[j], k);
    }
  }

  /** What every run from a fresh start keeps: the plans, exclusive rows, and that only a transaction with all its
      rows ends. */
  ghost predicate Sound(s: State) {
    WellFormed(s) && Exclusive(s) && forall i :: 0 <= i < |s| && s[i].done ==> s[i].held == |s[i].plan|
  }

  function Reset(j: Job): Job {
    Job(j.plan, 0, false)
  }

  /** The start of the transactions with these plans. */
  function Fresh(s: State): State {
    seq(|s|, i requires 0 <= i < |s| => Reset(s[i]))
  }

  lemma {:induction false} RunIsSound(states: seq<State>, schedule: seq<nat>)
    requires Run(states, schedule) && states[0] == Fresh(states[0])
    ensures Sound(states[|schedule|]) && Fresh(states[|schedule|]) == states[0]
  {
    var n := |schedule|;
    if n == 0 {
      assert forall i :: 0 <= i < |states[0]| ==> states[0][i] == Reset(states[0][i]);
    } else {
      RunIsSound(states[..n], schedule[..n - 1]);
      StepKeepsExclusive(states[n - 1], states[n], schedule[n - 1]);
    }
  }

  /** Any number of transactions, each doing one ApplyDelta or TransferDelta, in any schedule: no row is ever held
      twice, nobody ever waits in a cycle, the schedule has at most `Left` steps, and it can only stop when all have
      finished. */
  lemma PrimitivesNeverDeadlock(ops: seq<Primitive>, states: seq<State>, schedule: seq<nat>)
    requires Run(states, schedule) && states[0] == Start(ops)
    ensures |schedule| <= Left(Start(ops))
    ensures var s := states[|schedule|];
            && Exclusive(s)
            && (!Finished(s) ==> exists i :: CanStep(s, i))
            && (forall path :: WaitPath(s, path) ==> path[0] != path[|path| - 1])
  {
    forall i | 0 <= i < |ops|
      ensures Increasing(Start(ops)[i].plan)
    {
      PlansAreIncreasing(ops[i]);
    }
    RunIsBounded(states, schedule);
    assert Start(ops) == Fresh(Start(ops));
    RunIsSound(states, schedule);
    var s := states[|schedule|];
    if !Finished(s) {
      SomeoneCanStep(s);
    }
    forall path | WaitPath(s, path)
      ensures path[0] != path[|path| - 1]
    {
      NoWaitCycle(s, path);
    }
  }

  // ---- When a deadlock can be reached ----------------------------------------------------------------------------

  /** Unfinished, and nobody can step. */
  ghost predicate Stuck(s: State) {
    !Finished(s) && forall i :: !CanStep(s, i)
  }

  /** Some schedule of these transactions gets stuck. */
  ghost predicate CanStick(start: State) {
    exists states, schedule :: StuckRun(start, states, schedule)
  }

  ghost predicate StuckRun(start: State, states: seq<State>, schedule: seq<nat>) {
    Run(states, schedule) && states[0] == start && Stuck(states[|schedule|])
  }

  lemma AppendStep(states: seq<State>, schedule: seq<nat>, s: State, i: nat)
    requires Run(states, schedule) && Step(states[|schedule|], s, i)
    ensures Run(states + [s], schedule + [i])
  {
    forall n | 0 <= n < |schedule + [i]|
      ensures Step((states + [s])[n], (states + [s])[n + 1], (schedule + [i])[n])
    {
      assert n < |schedule| ==> Step(states[n], states[n + 1], schedule[n]);
    }
  }

  /** Transaction `i` locks its rows up to `h`, which nobody else holds. */
  lemma {:induction false} Climb(states: seq<State>, schedule: seq<nat>, i: nat, h: nat)
    returns (ss: seq<State>, sc: seq<nat>)
    requires Run(states, schedule)
    requires var s := states[|schedule|];
             && i < |s| && !s[i].done && s[i].held <= h <= |s[i].plan|
             && forall j, x :: 0 <= j < |s| && j != i && s[i].held <= x < h ==> !Holds(s[j], s[i].plan[x])
    ensures Run(ss, sc) && ss[0] == states[0]
    ensures var s := states[|schedule|]; ss[|sc|] == s[i := s[i].(held := h)]
    decreases h
  {
    var s := states[|schedule|];
    if h == s[i].held {
      ss, sc := states, schedule;
      assert s[i := s[i].(held := h)] == s;
    } else {
      ss, sc := Climb(states, schedule, i, h - 1);
      var t := ss[|sc|];
      var t' := s[i := s[i].(held := h)];
      assert t' == t[i := t[i].(held := t[i].held + 1)];
      assert !Blocked(t, i);
      AppendStep(ss, sc, t', i);
      ss, sc := ss + [t'], sc + [i];
    }
  }

  /** The first `k` of the transactions that end in `t` have ended and the others have not begun. */
  function EndedFirst(t: State, k: nat): State {
    seq(|t|, i requires 0 <= i < |t| => if t[i].done && i < k then t[i] else Reset(t[i]))
  }

  lemma {:induction false} RunEnded(t: State, k: nat) returns (states: seq<State>, schedule: seq<nat>)
    requires Sound(t) && k <= |t|
    ensures Run(states, schedule) && states[0] == Fresh(t) && states[|schedule|] == EndedFirst(t, k)
  {
    if k == 0 {
      states, schedule := [Fresh(t)], [];
      assert Fresh(t) == EndedFirst(t, 0);
    } else {
      states, schedule := RunEnded(t, k - 1);
      var s := states[|schedule|];
      if t[k - 1].done {
        states, schedule := Climb(states, schedule, k - 1, |t[k - 1].plan|);
        var u := states[|schedule|];
        assert u == s[k - 1 := u[k - 1]];
        assert EndedFirst(t, k) == u[k - 1 := u[k - 1].(done := true)];
        AppendStep(states, schedule, EndedFirst(t, k), k - 1);
        states, schedule := states + [EndedFirst(t, k)], schedule + [k - 1];
      } else {
        assert EndedFirst(t, k) == s;
      }
    }
  }

  /** Those that end in `t` have ended, and the first `k` of the others hold their rows. */
  function HoldingThen(t: State, k: nat): State {
    seq(|t|, i requires 0 <= i < |t| => if t[i].done || i < k then t[i] else Reset(t[i]))
  }

  lemma {:induction false} RunHolding(t: State, k: nat) returns (states: seq<State>, schedule: seq<nat>)
    requires Sound(t) && k <= |t|
    ensures Run(states, schedule) && states[0] == Fresh(t) && states[|schedule|] == HoldingThen(t, k)
  {
    if k == 0 {
      states, schedule := RunEnded(t, |t|);
      assert EndedFirst(t, |t|) == HoldingThen(t, 0);
    } else {
      states, schedule := RunHolding(t, k - 1);
      var s := states[|schedule|];
      if t[k - 1].done {
        assert HoldingThen(t, k) == s;
      } else {
        PrefixIsFree(t, s, k - 1);
        states, schedule := Climb(states, schedule, k - 1, t[k - 1].held);
        assert HoldingThen(t, k) == s[k - 1 := t[k - 1]];
      }
    }
  }

  lemma PrefixIsFree(t: State, s: State, i: nat)
    requires Sound(t) && i < |t| && !t[i].done && s == HoldingThen(t, i)
    ensures forall j, x :: 0 <= j < |s| && j != i && 0 <= x < t[i].held ==> !Holds(s[j], t[i].plan[x])
  {
    forall j, x | 0 <= j < |s| && j != i && 0 <= x < t[i].held
      ensures !Holds(s[j], t[i].plan[x])
    {
      var k := t[i].plan[x];
      assert t[i].plan[..t[i].held][x] == k;
      assert Holds(t[i], k);
      ResetHoldsNothing(t[j], k);
      assert s[j] == t[j] || s[j] == Reset(t[j]);
    }
  }

  lemma ResetHoldsNothing(j: Job, k: RowKey)
    ensures !Holds(Reset(j), k)
  {
  }

  /** Everything sound is reachable: locks alone rule out nothing but shared rows. */
  lemma SoundIsReachable(t: State) returns (states: seq<State>, schedule: seq<nat>)
    requires Sound(t)
    ensures Run(states, schedule) && states[0] == Fresh(t) && states[|schedule|] == t
  {
    states, schedule := RunHolding(t, |t|);
    assert HoldingThen(t, |t|) == t;
  }

  /** For any number of transactions with any plans: a deadlock can be reached exactly when there is a way to stop each
      of them, at the end or before one of its rows, so that no row is held twice, some are unfinished, and every
      unfinished one wants a row that another holds. */
  lemma StickingIsAConfiguration(start: State)
    requires start == Fresh(start)
    ensures CanStick(start) <==> exists t :: Sound(t) && Fresh(t) == start && Stuck(t)
  {
    if CanStick(start) {
      var states, schedule :| StuckRun(start, states, schedule);
      RunIsSound(states, schedule);
      var t := states[|schedule|];
      assert Sound(t) && Fresh(t) == start && Stuck(t);
    }
    if t :| Sound(t) && Fresh(t) == start && Stuck(t) {
      var states, schedule := SoundIsReachable(t);
      assert StuckRun(start, states, schedule);
    }
  }

  /** Any number of transactions whose plans follow the lock order never get stuck. */
  lemma OrderedNeverStick(start: State)
    requires start == Fresh(start) && forall i :: 0 <= i < |start| ==> Increasing(start[i].plan)
    ensures !CanStick(start)
  {
    if CanStick(start) {
      var states, schedule :| StuckRun(start, states, schedule);
      assert forall i :: 0 <= i < |start| ==> start[i] == Reset(start[i]);
      RunIsBounded(states, schedule);
      SomeoneCanStep(states[|schedule|]);
    }
  }

  // ---- Two transactions -------------------------------------------------------------------------------------

  function Pair(x: seq<RowKey>, y: seq<RowKey>): State {
    [Job(x, 0, false), Job(y, 0, false)]
  }

  predicate Disjoint<T(==)>(x: seq<T>, y: seq<T>) {
    forall k <- x :: k !in y
  }

  /** Holding `i` rows of one plan and `j` of the other, each wants a row that the other holds. */
  predicate Crosses<T(==)>(x: seq<T>, y: seq<T>, i: nat, j: nat) {
    i < |x| && j < |y| && x[i] in y[..j] && y[j] in x[..i] && Disjoint(x[..i], y[..j])
  }

  lemma CrossingIsStuck(x: seq<RowKey>, y: seq<RowKey>, i: nat, j: nat)
    requires Crosses(x, y, i, j)
    ensures var t := [Job(x, i, false), Job(y, j, false)]; Sound(t) && Fresh(t) == Pair(x, y) && Stuck(t)
  {
    var t := [Job(x, i, false), Job(y, j, false)];
    assert Holds(t[1], Wanted(t[0])) && Holds(t[0], Wanted(t[1]));
    assert Blocked(t, 0) && Blocked(t, 1);
    assert Fresh(t) == Pair(x, y);
  }

  lemma StuckIsCrossing(x: seq<RowKey>, y: seq<RowKey>, t: State)
    requires Sound(t) && Fresh(t) == Pair(x, y) && Stuck(t)
    ensures Crosses(x, y, t[0].held, t[1].held)
  {
    assert |t| == 2 && Reset(t[0]) == Pair(x, y)[0] && Reset(t[1]) == Pair(x, y)[1];
    assert !CanStep(t, 0) && !CanStep(t, 1);
    forall k <- x[..t[0].held]
      ensures !t[0].done && !t[1].done ==> k !in y[..t[1].held]
    {
      assert !(Holds(t[0], k) && Holds(t[1], k));
    }
  }

  /** Two transactions can deadlock exactly when their plans cross. */
  lemma PairSticks(x: seq<RowKey>, y: seq<RowKey>)
    ensures CanStick(Pair(x, y)) <==> exists i, j :: Crosses(x, y, i, j)
  {
    var start := Pair(x, y);
    assert Fresh(start) == start;
    StickingIsAConfiguration(start);
    if CanStick(start) {
      var t :| Sound(t) && Fresh(t) == start && Stuck(t);
      StuckIsCrossing(x, y, t);
    }
    if i, j :| Crosses(x, y, i, j) {
      CrossingIsStuck(x, y, i, j);
    }
  }
}
