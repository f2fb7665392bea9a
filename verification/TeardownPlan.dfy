/** The order of the teardown operations: what makes one sound, and the one the code's deferred functions give. */
module TeardownPlan {
  import opened Pipeline

  ghost predicate DistinctOps(ops: seq<Op>) { forall i, j :: 0 <= i < j < |ops| ==> ops[i] != ops[j] }

  /** `late` never comes after `early`. */
  ghost predicate NeverAfter(ops: seq<Op>, early: Op, late: Op) {
    forall i, j :: 0 <= i < j < |ops| && ops[i] == early ==> ops[j] != late
  }

  /** An order of all seven operations. */
  ghost predicate IsPlan(plan: seq<Op>) { DistinctOps(plan) && forall op: Op :: op in plan }

  /** The callback is released before the disconnect that waits for it, disconnected before the queue
      is closed, and commands are cancelled before their workers are joined. */
  ghost predicate Sound(plan: seq<Op>) {
    && NeverAfter(plan, Disconnect, CloseDraining)
    && NeverAfter(plan, CloseQueue, Disconnect)
    && NeverAfter(plan, JoinWorkers, CancelCommands)
  }

  function Path(k: nat): seq<Deferred> {
    if k == 0 then [] else if k == 1 then [StopWorkers] else if k == 2 then [StopWorkers, StopMqtt]
    else if k == 3 then [StopWorkers, StopMqtt, ReleaseCallback]
    else [StopWorkers, StopMqtt, ReleaseCallback, StopTimer]
  }

  lemma {:induction false} ScheduledOps(plan: seq<Op>, deferred: seq<Deferred>)
    ensures forall op :: op in Scheduled(plan, deferred) <==> op in plan && Owner(op) in deferred
    ensures DistinctOps(plan) ==> DistinctOps(Scheduled(plan, deferred))
  {
    if plan != [] {
      ScheduledOps(plan[1..], deferred);
      assert plan == [plan[0]] + plan[1..];
      assert forall i :: 0 < i < |plan| ==> plan[i] == plan[1..][i - 1];
    }
  }

  lemma {:induction false} ScheduledOrder(plan: seq<Op>, deferred: seq<Deferred>, early: Op, late: Op)
    requires NeverAfter(plan, early, late)
    ensures NeverAfter(Scheduled(plan, deferred), early, late)
  {
    if plan != [] {
      assert forall i :: 0 < i < |plan| ==> plan[i] == plan[1..][i - 1];
      ScheduledOrder(plan[1..], deferred, early, late);
      ScheduledOps(plan[1..], deferred);
      var all, rest := Scheduled(plan, deferred), Scheduled(plan[1..], deferred);
      forall i, j | 0 <= i < j < |all| && all[i] == early ensures all[j] != late {
        var k := |all| - |rest|;
        if i < k {
          assert all[j] == rest[j - k] && rest[j - k] in rest;
          var m :| 0 <= m < |plan[1..]| && plan[1..][m] == all[j];
          assert plan[m + 1] == all[j];
        } else {
          assert all[i] == rest[i - k] && all[j] == rest[j - k];
        }
      }
    }
  }

  lemma LifoIsSound()
    ensures IsPlan(LIFO) && Sound(LIFO)
  {
    forall op: Op ensures op in LIFO {
      match op
      case StopRenewTimer => assert LIFO[0] == op;
      case CloseDraining => assert LIFO[1] == op;
      case Unsubscribe => assert LIFO[2] == op;
      case Disconnect => assert LIFO[3] == op;
      case CancelCommands => assert LIFO[4] == op;
      case CloseQueue => assert LIFO[5] == op;
      case JoinWorkers => assert LIFO[6] == op;
    }
  }

  lemma {:induction false} ScheduledAppend(a: seq<Op>, b: seq<Op>, deferred: seq<Deferred>)
    ensures Scheduled(a + b, deferred) == Scheduled(a, deferred) + Scheduled(b, deferred)
  {
    if a == [] {
      assert a + b == b;
    } else {
      ScheduledAppend(a[1..], b, deferred);
      var head := if Owner(a[0]) in deferred then [a[0]] else [];
      assert (a + b)[1..] == a[1..] + b && (a + b)[0] == a[0];
      assert head + (Scheduled(a[1..], deferred) + Scheduled(b, deferred)) == (head + Scheduled(a[1..], deferred)) + Scheduled(b, deferred);
    }
  }

  lemma {:induction false} AllOrNone(ops: seq<Op>, deferred: seq<Deferred>)
    ensures (forall op :: op in ops ==> Owner(op) in deferred) ==> Scheduled(ops, deferred) == ops
    ensures (forall op :: op in ops ==> Owner(op) !in deferred) ==> Scheduled(ops, deferred) == []
  {
    if ops != [] {
      AllOrNone(ops[1..], deferred);
      assert ops == [ops[0]] + ops[1..];
    }
  }

  lemma OwnedBy(d: Deferred)
    ensures forall op :: op in Ops(d) <==> Owner(op) == d
  {
    forall op: Op ensures op in Ops(d) <==> Owner(op) == d {
      var ops := Ops(Owner(op));
      assert ops[0] == op || ops[1] == op || ops[2] == op;
    }
  }

  lemma {:induction false} UnwindsOwned(k: nat, op: Op)
    requires k <= 4 && op in Unwind(Path(k))
    ensures Owner(op) in Path(k)
  {
    if k > 0 {
      assert Path(k)[..k - 1] == Path(k - 1);
      OwnedBy(Path(k)[k - 1]);
      if op in Unwind(Path(k - 1)) { UnwindsOwned(k - 1, op); }
    }
  }

  lemma LongerPath(j: nat, k: nat)
    requires 1 <= k < j <= 4
    ensures Path(j)[j - 1] !in Path(k)
    ensures Unwind(Path(j)) == Ops(Path(j)[j - 1]) + Unwind(Path(j - 1))
  {
    assert Path(j)[..j - 1] == Path(j - 1);
  }

  /** What a longer path would run, less what this one has not deferred, is what this one runs. */
  lemma {:induction false} ScheduledPath(j: nat, k: nat)
    requires 1 <= k <= j <= 4
    ensures Scheduled(Unwind(Path(j)), Path(k)) == Unwind(Path(k))
    decreases j
  {
    if j == k {
      WholePath(k);
    } else {
      LongerPath(j, k);
      LastPart(Path(j)[j - 1], Unwind(Path(j - 1)), Path(k));
      ScheduledPath(j - 1, k);
    }
  }

  lemma WholePath(k: nat)
    requires k <= 4
    ensures Scheduled(Unwind(Path(k)), Path(k)) == Unwind(Path(k))
  {
    forall op | op in Unwind(Path(k)) ensures Owner(op) in Path(k) {
      UnwindsOwned(k, op);
    }
    AllOrNone(Unwind(Path(k)), Path(k));
  }

  lemma LastPart(d: Deferred, rest: seq<Op>, deferred: seq<Deferred>)
    requires d !in deferred
    ensures Scheduled(Ops(d) + rest, deferred) == Scheduled(rest, deferred)
  {
    OwnedBy(d);
    AllOrNone(Ops(d), deferred);
    ScheduledAppend(Ops(d), rest, deferred);
  }

  /** On each return path the deferred functions, last in first out, run what the plan LIFO schedules. */
  lemma UnwindPath(k: nat)
    requires 1 <= k <= 4
    ensures Unwind(Path(k)) == Scheduled(LIFO, Path(k))
  {
    assert Path(4)[..3] == Path(3) && Path(3)[..2] == Path(2) && Path(2)[..1] == Path(1) && Path(1)[..0] == [];
    assert Unwind(Path(1)) == Ops(StopWorkers) + Unwind([]);
    assert Unwind(Path(2)) == Ops(StopMqtt) + Unwind(Path(1));
    assert Unwind(Path(3)) == Ops(ReleaseCallback) + Unwind(Path(2));
    assert Unwind(Path(4)) == Ops(StopTimer) + Unwind(Path(3)) == LIFO;
    ScheduledPath(4, k);
  }

  /** Taking the first operation off a teardown. */
  lemma Popped(todo: seq<Op>)
    requires todo != [] && DistinctOps(todo)
    ensures DistinctOps(todo[1..])
    ensures forall op :: op in todo <==> op == todo[0] || op in todo[1..]
    ensures todo[0] !in todo[1..]
  {
    assert todo == [todo[0]] + todo[1..];
    assert forall i :: 0 <= i < |todo| - 1 ==> todo[1..][i] == todo[i + 1];
  }

  lemma PoppedSound(todo: seq<Op>)
    requires todo != [] && DistinctOps(todo) && Sound(todo)
    ensures DistinctOps(todo[1..]) && Sound(todo[1..])
    ensures forall op :: op in todo <==> op == todo[0] || op in todo[1..]
    ensures todo[0] !in todo[1..]
    ensures todo[0] == Disconnect ==> CloseDraining !in todo[1..]
    ensures todo[0] == CloseQueue ==> Disconnect !in todo[1..]
    ensures todo[0] == JoinWorkers ==> CancelCommands !in todo[1..]
  {
    Popped(todo);
    PoppedOrder(todo, Disconnect, CloseDraining);
    PoppedOrder(todo, CloseQueue, Disconnect);
    PoppedOrder(todo, JoinWorkers, CancelCommands);
  }

  lemma PoppedOrder(todo: seq<Op>, early: Op, late: Op)
    requires todo != [] && NeverAfter(todo, early, late)
    ensures NeverAfter(todo[1..], early, late)
    ensures todo[0] == early ==> late !in todo[1..]
  {
    assert forall i :: 0 <= i < |todo| - 1 ==> todo[1..][i] == todo[i + 1];
  }

  lemma OneWay(ops: seq<Op>, a: Op, b: Op)
    requires DistinctOps(ops)
    ensures NeverAfter(ops, a, b) || NeverAfter(ops, b, a)
  {
  }

  lemma WholePlan(plan: seq<Op>)
    ensures Scheduled(plan, Path(4)) == plan
  {
    AllOrNone(plan, Path(4));
  }
}
