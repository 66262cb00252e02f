/** The names that are lost when a handler stops halfway. */
module PlaylistLeaks {
  import opened Wrappers
  import opened PlaylistTables
  import opened PlaylistHandlers
  import opened PlaylistNames

  function KeyOf(fold: Fold, m: Meta): (int, string) { (m.user, fold(m.row.name)) }

  /** The handler still refers to this reservation. */
  predicate Uses(fold: Fold, op: Op, k: (int, string)) {
    match op
    case CreateById(user, _, name) => (user, fold(name)) == k
    case CreateByUser(user, _, name, _) => (user, fold(name)) == k
    case RenameReserve(user, _, _, oldName, _) => (user, fold(oldName)) == k
    case RenameById(user, _, name, oldName, _, _) => (user, fold(name)) == k || (user, fold(oldName)) == k
    case RenameByUser(user, _, name, oldName, _, _) => (user, fold(name)) == k || (user, fold(oldName)) == k
    case RenameRelease(user, _, name, oldName) => (user, fold(name)) == k || (user, fold(oldName)) == k
    case DeleteByUser(user, _, oldName) => (user, fold(oldName)) == k
    case DeleteById(user, _, oldName) => (user, fold(oldName)) == k
    case DeleteRelease(user, _, oldName) => (user, fold(oldName)) == k
    case _ => false
  }

  predicate Unclaimed(fold: Fold, t: Tables, k: (int, string)) {
    k in t.names && forall p :: p in t.byId ==> KeyOf(fold, t.byId[p]) != k
  }

  /** A reserved name that neither a playlist nor a handler has. */
  predicate Leaked(fold: Fold, w: World, k: (int, string)) {
    Unclaimed(fold, w.tables, k) && forall i :: 0 <= i < |w.ops| ==> !Uses(fold, w.ops[i], k)
  }

  lemma CreateLeakStep(fold: Fold, t: Tables, op: Op, env: Env, k: (int, string))
    requires Creating(op) && OpOk(fold, t, op) && Unclaimed(fold, t, k) && !Uses(fold, op, k)
    ensures var (t', next) := StepCreate(fold, t, op, env); Unclaimed(fold, t', k) && !Uses(fold, next, k)
  {
    hide Listed;
  }

  lemma RenameLeakStep(fold: Fold, t: Tables, op: Op, env: Env, k: (int, string))
    requires Renaming(op) && OpOk(fold, t, op) && Unclaimed(fold, t, k) && !Uses(fold, op, k)
    ensures var (t', next) := StepRename(fold, t, op, env); Unclaimed(fold, t', k) && !Uses(fold, next, k)
  {
    hide Items;
  }

  lemma DeleteLeakStep(fold: Fold, t: Tables, op: Op, env: Env, k: (int, string))
    requires Deleting(op) && OpOk(fold, t, op) && Unclaimed(fold, t, k) && !Uses(fold, op, k)
    ensures var (t', next) := StepDelete(fold, t, op, env); Unclaimed(fold, t', k) && !Uses(fold, next, k)
  {
    hide Items, ItemOrder.Sorted, Videos;
  }

  lemma LateUsesNothing(fold: Fold, op: Op, k: (int, string))
    requires Adding(op) || Removing(op) || op.Done?
    ensures !Uses(fold, op, k)
  {
  }

  lemma AddKeepsUnclaimed(fold: Fold, t: Tables, op: Op, env: Env, k: (int, string))
    requires Adding(op) && OpOk(fold, t, op) && Unclaimed(fold, t, k)
    ensures Unclaimed(fold, StepAdd(t, op, env).0, k)
  {
    hide Items, Prepended, Reserved;
  }

  lemma AddLeakStep(fold: Fold, t: Tables, op: Op, env: Env, k: (int, string))
    requires Adding(op) && OpOk(fold, t, op) && Unclaimed(fold, t, k)
    ensures var (t', next) := StepAdd(t, op, env); Unclaimed(fold, t', k) && !Uses(fold, next, k)
  {
    hide Unclaimed, OpOk, StepAdd, Uses;
    AddKeepsUnclaimed(fold, t, op, env, k);
    AddContinues(t, op, env);
    LateUsesNothing(fold, StepAdd(t, op, env).1, k);
  }

  lemma RemoveKeepsUnclaimed(fold: Fold, t: Tables, op: Op, env: Env, k: (int, string))
    requires Removing(op) && OpOk(fold, t, op) && Unclaimed(fold, t, k)
    ensures Unclaimed(fold, StepRemove(t, op, env).0, k)
  {
    hide Items, Recomputed, OneLess, Reserved;
  }

  lemma RemoveLeakStep(fold: Fold, t: Tables, op: Op, env: Env, k: (int, string))
    requires Removing(op) && OpOk(fold, t, op) && Unclaimed(fold, t, k)
    ensures var (t', next) := StepRemove(t, op, env); Unclaimed(fold, t', k) && !Uses(fold, next, k)
  {
    hide Unclaimed, OpOk, StepRemove, Uses;
    RemoveKeepsUnclaimed(fold, t, op, env, k);
    RemoveContinues(t, op, env);
    LateUsesNothing(fold, StepRemove(t, op, env).1, k);
  }

  lemma LeakStep(fold: Fold, t: Tables, op: Op, env: Env, k: (int, string))
    requires OpOk(fold, t, op) && Unclaimed(fold, t, k) && !Uses(fold, op, k)
    ensures var (t', next) := Step(fold, t, op, env); Unclaimed(fold, t', k) && !Uses(fold, next, k)
  {
    hide StepCreate, StepRename, StepDelete, StepAdd, StepRemove, OpOk, Uses, Unclaimed;
    if Creating(op) {
      CreateLeakStep(fold, t, op, env, k);
    } else if Renaming(op) {
      RenameLeakStep(fold, t, op, env, k);
    } else if Deleting(op) {
      DeleteLeakStep(fold, t, op, env, k);
    } else if Adding(op) {
      AddLeakStep(fold, t, op, env, k);
    } else if !op.Done? {
      RemoveLeakStep(fold, t, op, env, k);
    }
  }

  lemma LeakNext(fold: Fold, w: World, ev: Event, k: (int, string))
    requires Inv(fold, w) && Enabled(w, ev) && Leaked(fold, w, k)
    ensures Leaked(fold, Next(fold, w, ev), k)
  {
    hide Step, OpOk, PlaylistOk, Unclaimed;
    if ev.Advance? {
      LeakStep(fold, w.tables, w.ops[ev.i], ev.env, k);
    }
  }

  lemma {:induction false} LeakLasts(fold: Fold, w: World, evs: seq<Event>, k: (int, string))
    requires Inv(fold, w) && CanRun(fold, w, evs) && Leaked(fold, w, k)
    ensures Leaked(fold, After(fold, w, evs), k)
    decreases |evs|
  {
    hide Inv, Next, Enabled, Leaked;
    if evs != [] {
      NextKeeps(fold, w, evs[0]);
      LeakNext(fold, w, evs[0], k);
      LeakLasts(fold, Next(fold, w, evs[0]), evs[1..], k);
    }
  }

  /** The name that is lost when the handler stops here: reserved, but not in use, or
      no longer in use, but not released. */
  function LostIfStopped(fold: Fold, op: Op): Option<(int, string)> {
    match op
    case CreateById(user, _, name) => Some((user, fold(name)))
    case RenameById(user, _, name, _, _, release) => if release then Some((user, fold(name))) else None
    case RenameByUser(user, _, _, oldName, _, release) => if release then Some((user, fold(oldName))) else None
    case RenameRelease(user, _, _, oldName) => Some((user, fold(oldName)))
    case DeleteRelease(user, _, oldName) => Some((user, fold(oldName)))
    case _ => None
  }

  lemma LostIsReserved(fold: Fold, t: Tables, op: Op)
    requires OpOk(fold, t, op) && LostIfStopped(fold, op).Some?
    ensures var k := LostIfStopped(fold, op).value;
            k in t.names && t.names[k] == op.pid && (op.pid in t.byId ==> KeyOf(fold, t.byId[op.pid]) != k)
  {
  }

  /** Any handler's reservations are its own. */
  lemma UsesOwn(fold: Fold, t: Tables, op: Op, k: (int, string))
    requires OpOk(fold, t, op) && PlaylistOk(fold, t, op.pid) && Uses(fold, op, k)
    ensures k in t.names && t.names[k] == op.pid
  {
  }

  /** Two handlers of one playlist do not both hold reservations. */
  lemma OthersUseOthers(fold: Fold, w: World, i: nat, j: nat, k: (int, string))
    requires Inv(fold, w) && i < |w.ops| && j < |w.ops| && i != j && LostIfStopped(fold, w.ops[i]) == Some(k)
    ensures !Uses(fold, w.ops[j], k)
  {
    var op, other := w.ops[i], w.ops[j];
    LostIsReserved(fold, w.tables, op);
    assert MayOverlap(op, other) || MayOverlap(other, op);
    if Uses(fold, other, k) {
      UsesOwn(fold, w.tables, other, k);
      assert false;
    }
  }

  lemma NamesOwn(fold: Fold, t: Tables, p: string)
    requires PlaylistOk(fold, t, p) && p in t.byId
    ensures KeyOf(fold, t.byId[p]) in t.names && t.names[KeyOf(fold, t.byId[p])] == p
  {
  }

  lemma StopLeaks(fold: Fold, w: World, i: nat)
    requires Inv(fold, w) && i < |w.ops| && LostIfStopped(fold, w.ops[i]).Some?
    ensures Leaked(fold, Next(fold, w, Stop(i)), LostIfStopped(fold, w.ops[i]).value)
  {
    var op := w.ops[i];
    var k := LostIfStopped(fold, op).value;
    var v := Next(fold, w, Stop(i));
    assert !Uses(fold, v.ops[i], k);
    assert !op.Done?;
    hide OpOk, PlaylistOk, KeyOf, LostIfStopped, Step;
    LostIsReserved(fold, w.tables, op);
    forall p | p in w.tables.byId
      ensures KeyOf(fold, w.tables.byId[p]) != k
    {
      NamesOwn(fold, w.tables, p);
    }
    forall j | 0 <= j < |w.ops| && j != i
      ensures !Uses(fold, w.ops[j], k)
    {
      OthersUseOthers(fold, w, i, j, k);
    }
  }

  /** A release that fails loses the old name in the same way. */
  lemma FailedReleaseLeaks(fold: Fold, w: World, i: nat, env: Env)
    requires Inv(fold, w) && i < |w.ops| && env.fails
    requires w.ops[i].RenameRelease? || w.ops[i].DeleteRelease?
    ensures Leaked(fold, Next(fold, w, Advance(i, env)), (w.ops[i].user, fold(w.ops[i].oldName)))
  {
    StopLeaks(fold, w, i);
    var v, v' := Next(fold, w, Stop(i)), Next(fold, w, Advance(i, env));
    assert v.tables == v'.tables;
    assert forall j :: 0 <= j < |w.ops| && j != i ==> v.ops[j] == v'.ops[j];
  }

  // ---- Exactly when a name is lost -------------------------------------------------------

  predicate ReleaseFails(op: Op, env: Env) { env.fails && (op.RenameRelease? || op.DeleteRelease?) }

  /** The name that is lost by this event. */
  function LostBy(fold: Fold, w: World, ev: Event): Option<(int, string)>
    requires Enabled(w, ev)
  {
    match ev
    case Start(_) => None
    case Stop(i) => LostIfStopped(fold, w.ops[i])
    case Advance(i, env) => if ReleaseFails(w.ops[i], env) then LostIfStopped(fold, w.ops[i]) else None
  }

  /** Every reserved name is the name of a playlist or in the hands of a handler. */
  ghost predicate NoneLost(fold: Fold, w: World) { forall k :: !Leaked(fold, w, k) }

  lemma LostIsLeaked(fold: Fold, w: World, ev: Event)
    requires Inv(fold, w) && Enabled(w, ev) && LostBy(fold, w, ev).Some?
    ensures Leaked(fold, Next(fold, w, ev), LostBy(fold, w, ev).value)
  {
    hide Inv, Leaked, Next;
    if ev.Stop? {
      StopLeaks(fold, w, ev.i);
    } else {
      FailedReleaseLeaks(fold, w, ev.i, ev.env);
    }
  }

  /** The reservation has an owner: a playlist, or this handler. */
  predicate Held(fold: Fold, t: Tables, op: Op, k: (int, string)) { !Unclaimed(fold, t, k) || Uses(fold, op, k) }

  lemma CreateHolds(fold: Fold, t: Tables, op: Op, env: Env, k: (int, string))
    requires Creating(op) && OpOk(fold, t, op) && Held(fold, t, op, k)
    ensures var (t', next) := StepCreate(fold, t, op, env); Held(fold, t', next, k)
  {
    hide Listed;
    var (t', next) := StepCreate(fold, t, op, env);
    assert forall p :: p in t.byId && p != op.pid ==> p in t'.byId && t'.byId[p] == t.byId[p];
    assert op.CreateById? ==> op.pid in t'.byId;
  }

  lemma RenameHolds(fold: Fold, t: Tables, op: Op, env: Env, k: (int, string))
    requires Renaming(op) && OpOk(fold, t, op) && !ReleaseFails(op, env) && Held(fold, t, op, k)
    ensures var (t', next) := StepRename(fold, t, op, env); Held(fold, t', next, k)
  {
    var (t', next) := StepRename(fold, t, op, env);
    assert forall p :: p in t.byId && p != op.pid ==> p in t'.byId && t'.byId[p] == t.byId[p];
    assert op.RenameById? ==> op.pid in t'.byId;
  }

  lemma DeleteHolds(fold: Fold, t: Tables, op: Op, env: Env, k: (int, string))
    requires Deleting(op) && OpOk(fold, t, op) && !ReleaseFails(op, env) && Held(fold, t, op, k)
    ensures var (t', next) := StepDelete(fold, t, op, env); Held(fold, t', next, k)
  {
    hide Items, ItemOrder.Sorted, Videos;
    var (t', next) := StepDelete(fold, t, op, env);
    assert forall p :: p in t.byId && p != op.pid ==> p in t'.byId && t'.byId[p] == t.byId[p];
  }

  lemma AddHolds(fold: Fold, t: Tables, op: Op, env: Env, k: (int, string))
    requires Adding(op) && OpOk(fold, t, op) && !Unclaimed(fold, t, k)
    ensures !Unclaimed(fold, StepAdd(t, op, env).0, k)
  {
    hide Items, Prepended;
    var t' := StepAdd(t, op, env).0;
    assert forall p :: p in t.byId ==> p in t'.byId && KeyOf(fold, t'.byId[p]) == KeyOf(fold, t.byId[p]);
  }

  lemma RemoveHolds(fold: Fold, t: Tables, op: Op, env: Env, k: (int, string))
    requires Removing(op) && OpOk(fold, t, op) && !Unclaimed(fold, t, k)
    ensures !Unclaimed(fold, StepRemove(t, op, env).0, k)
  {
    hide Items, Recomputed, OneLess, OpOk;
    var t' := StepRemove(t, op, env).0;
    assert forall p :: p in t.byId ==> p in t'.byId && KeyOf(fold, t'.byId[p]) == KeyOf(fold, t.byId[p]);
  }

  lemma LateHolds(fold: Fold, t: Tables, op: Op, env: Env, k: (int, string))
    requires ItemsOnly(op) && OpOk(fold, t, op) && Held(fold, t, op, k)
    ensures !Unclaimed(fold, Step(fold, t, op, env).0, k)
  {
    hide StepAdd, StepRemove, OpOk, Uses, Unclaimed;
    LateUsesNothing(fold, op, k);
    if Adding(op) {
      AddHolds(fold, t, op, env, k);
    } else {
      RemoveHolds(fold, t, op, env, k);
    }
  }

  lemma StepHolds(fold: Fold, t: Tables, op: Op, env: Env, k: (int, string))
    requires OpOk(fold, t, op) && !ReleaseFails(op, env) && !op.Done? && Held(fold, t, op, k)
    ensures var (t', next) := Step(fold, t, op, env); Held(fold, t', next, k)
  {
    hide StepCreate, StepRename, StepDelete, StepAdd, StepRemove, OpOk, ReleaseFails, Uses, Unclaimed;
    if Creating(op) {
      CreateHolds(fold, t, op, env, k);
    } else if Renaming(op) {
      RenameHolds(fold, t, op, env, k);
    } else if Deleting(op) {
      DeleteHolds(fold, t, op, env, k);
    } else {
      LateHolds(fold, t, op, env, k);
    }
  }

  lemma StopHolds(fold: Fold, t: Tables, op: Op, k: (int, string))
    requires OpOk(fold, t, op) && LostIfStopped(fold, op).None? && Uses(fold, op, k)
    ensures !Unclaimed(fold, t, k)
  {
    assert op.pid in t.byId && KeyOf(fold, t.byId[op.pid]) == k;
  }

  lemma AdvanceHolds(fold: Fold, w: World, i: nat, env: Env, k: (int, string))
    requires Inv(fold, w) && Enabled(w, Advance(i, env)) && LostBy(fold, w, Advance(i, env)).None?
    requires Held(fold, w.tables, w.ops[i], k)
    ensures !Leaked(fold, Next(fold, w, Advance(i, env)), k)
  {
    var op := w.ops[i];
    assert !ReleaseFails(op, env);
    hide Step, OpOk, PlaylistOk, Uses, Unclaimed, ReleaseFails, MayOverlap, LostIfStopped;
    StepHolds(fold, w.tables, op, env, k);
    assert Next(fold, w, Advance(i, env)).ops[i] == Step(fold, w.tables, op, env).1;
  }

  lemma HeldUnlessLost(fold: Fold, w: World, ev: Event, k: (int, string))
    requires Inv(fold, w) && Enabled(w, ev) && !Leaked(fold, w, k) && LostBy(fold, w, ev).None?
    ensures !Leaked(fold, Next(fold, w, ev), k)
  {
    var v := Next(fold, w, ev);
    hide Step, OpOk, PlaylistOk, Uses, Unclaimed, ReleaseFails, MayOverlap, LostIfStopped;
    if Unclaimed(fold, w.tables, k) {
      var j :| 0 <= j < |w.ops| && Uses(fold, w.ops[j], k);
      if ev.Start? || j != ev.i {
        assert Uses(fold, v.ops[j], k);
      }
    }
    if ev.Stop? && Uses(fold, w.ops[ev.i], k) {
      StopHolds(fold, w.tables, w.ops[ev.i], k);
    }
    if ev.Advance? && Held(fold, w.tables, w.ops[ev.i], k) {
      AdvanceHolds(fold, w, ev.i, ev.env, k);
    }
  }

  lemma LeakedIsLost(fold: Fold, w: World, k: (int, string))
    requires Leaked(fold, w, k)
    ensures !NoneLost(fold, w)
  {
  }

  /** A name gets lost by exactly these events: a handler stops while a reservation is
      not in use yet or no longer, or fails to release it. */
  lemma NoneLostIff(fold: Fold, w: World, ev: Event)
    requires Inv(fold, w) && Enabled(w, ev) && NoneLost(fold, w)
    ensures NoneLost(fold, Next(fold, w, ev)) <==> LostBy(fold, w, ev).None?
  {
    hide Inv, Enabled, LostBy, Next;
    if LostBy(fold, w, ev).Some? {
      hide NoneLost;
      LostIsLeaked(fold, w, ev);
      LeakedIsLost(fold, Next(fold, w, ev), LostBy(fold, w, ev).value);
    } else {
      forall k
        ensures !Leaked(fold, Next(fold, w, ev), k)
      {
        HeldUnlessLost(fold, w, ev, k);
      }
    }
  }

  /** No event of the run loses a name. */
  predicate LosesNone(fold: Fold, w: World, evs: seq<Event>)
    requires CanRun(fold, w, evs)
    decreases |evs|
  {
    evs == [] || (LostBy(fold, w, evs[0]).None? && LosesNone(fold, Next(fold, w, evs[0]), evs[1..]))
  }

  lemma {:induction false} RunLosesNoneIff(fold: Fold, w: World, evs: seq<Event>)
    requires Inv(fold, w) && CanRun(fold, w, evs) && NoneLost(fold, w)
    ensures NoneLost(fold, After(fold, w, evs)) <==> LosesNone(fold, w, evs)
    decreases |evs|
  {
    hide Inv, Next, Enabled, NoneLost, LostBy;
    if evs != [] {
      var v := Next(fold, w, evs[0]);
      NextKeeps(fold, w, evs[0]);
      NoneLostIff(fold, w, evs[0]);
      if LostBy(fold, w, evs[0]).None? {
        RunLosesNoneIff(fold, v, evs[1..]);
      } else {
        LostIsLeaked(fold, w, evs[0]);
        LeakLasts(fold, v, evs[1..], LostBy(fold, w, evs[0]).value);
        LeakedIsLost(fold, After(fold, v, evs[1..]), LostBy(fold, w, evs[0]).value);
      }
    }
  }

  /** From tables in order: after any run every reserved name is the name of a playlist or
      in the hands of a handler if and only if no event of the run lost one. */
  lemma EveryRunLosesNoneIff(fold: Fold, t: Tables, evs: seq<Event>)
    requires Consistent(fold, t) && NoneLost(fold, World(t, [])) && CanRun(fold, World(t, []), evs)
    ensures NoneLost(fold, After(fold, World(t, []), evs)) <==> LosesNone(fold, World(t, []), evs)
  {
    hide PlaylistOk, OpOk, NoneLost, CanRun, After, LosesNone;
    RunLosesNoneIff(fold, World(t, []), evs);
  }

  /** A lost name, whether a handler stopped or its release failed, stays lost in every
      further run: it is reserved, no playlist has it, and every attempt to take it ends
      in a conflict. */
  lemma LostForEver(fold: Fold, t: Tables, before: seq<Event>, ev: Event, further: seq<Event>, op: Op, env: Env)
    requires Consistent(fold, t) && CanRun(fold, World(t, []), before)
    requires Enabled(After(fold, World(t, []), before), ev)
    requires CanRun(fold, Next(fold, After(fold, World(t, []), before), ev), further)
    requires op.CreateReserve? || op.RenameReserve?
    requires LostBy(fold, After(fold, World(t, []), before), ev) == Some((op.user, fold(op.name)))
    ensures var u := After(fold, Next(fold, After(fold, World(t, []), before), ev), further).tables;
            && Unclaimed(fold, u, (op.user, fold(op.name)))
            && Step(fold, u, op, env) == (u, Done(op.user, op.pid, CONFLICT))
  {
    var w := After(fold, World(t, []), before);
    assert Inv(fold, World(t, []));
    hide After, CanRun, Inv, Enabled, OpOk, LostBy, PlaylistOk;
    AfterKeeps(fold, World(t, []), before);
    LostIsLeaked(fold, w, ev);
    NextKeeps(fold, w, ev);
    LeakLasts(fold, Next(fold, w, ev), further, (op.user, fold(op.name)));
  }
}
