/** Exactly which table operations break names and ownership, whatever handlers overlap. */
module PlaylistBreaks {
  import opened PlaylistTables
  import opened PlaylistHandlers
  import opened PlaylistNames

  /** The key is the folded name of a live playlist that holds it. */
  predicate InUse(fold: Fold, t: Tables, k: (int, string)) {
    k in t.names
    && var p := t.names[k];
       p in t.byId && (t.byId[p].user, fold(t.byId[p].row.name)) == k
  }

  predicate StillListed(t: Tables, pid: string) { pid in t.byId && (t.byId[pid].user, pid) in t.byUser }

  /** The write makes a row of nobody, and the empty name is not reserved to it. */
  predicate MakesBlank(fold: Fold, t: Tables, pid: string) { pid !in t.byId && !Reserved(fold, t, 0, "", pid) }

  /** The operation is about to break names or ownership: it names a row with a name that
      is not reserved to it, lists a playlist for somebody it does not belong to, drops the
      row of a listed playlist, or releases a name in use. */
  predicate Breaks(fold: Fold, t: Tables, op: Op, env: Env) {
    match op
    case CreateById(user, pid, name) =>
      !Reserved(fold, t, user, name, pid) || (StillListed(t, pid) && t.byId[pid].user != user)
    case CreateByUser(user, pid, _, _) => !Owned(t, user, pid)
    case RenameById(_, pid, name, _, _, _) => !Reserved(fold, t, IdRow(t, pid).user, name, pid)
    case RenameByUser(user, pid, _, _, _, _) => !Owned(t, user, pid)
    case RenameRelease(user, _, _, oldName) => !env.fails && InUse(fold, t, (user, fold(oldName)))
    case DeleteById(_, pid, _) => StillListed(t, pid)
    case DeleteRelease(user, _, oldName) => !env.fails && InUse(fold, t, (user, fold(oldName)))
    case AddById(_, pid, _, _, _) => MakesBlank(fold, t, pid)
    case AddByUser(user, pid, _, _, _) => !Owned(t, user, pid)
    case RemoveById(_, pid, _, _, _) => !env.fails && MakesBlank(fold, t, pid)
    case RemoveByUser(user, pid, _, _, _) => !env.fails && !Owned(t, user, pid)
    case _ => false
  }

  // ---- One step -----------------------------------------------------------------------------

  lemma CreateBreaks(fold: Fold, t: Tables, op: Op, env: Env)
    requires Creating(op) && Breaks(fold, t, op, env)
    ensures !PlaylistOk(fold, StepCreate(fold, t, op, env).0, op.pid)
  {
    hide Listed;
  }

  lemma CreateLeavesOk(fold: Fold, t: Tables, op: Op, env: Env, p: string)
    requires Creating(op) && !Breaks(fold, t, op, env) && PlaylistOk(fold, t, p)
    ensures PlaylistOk(fold, StepCreate(fold, t, op, env).0, p)
  {
    hide Listed;
  }

  lemma RenameBreaks(fold: Fold, t: Tables, op: Op, env: Env)
    requires Renaming(op) && Breaks(fold, t, op, env)
    ensures !Consistent(fold, StepRename(fold, t, op, env).0)
  {
    var t' := StepRename(fold, t, op, env).0;
    if op.RenameRelease? {
      assert !PlaylistOk(fold, t', t.names[(op.user, fold(op.oldName))]);
    } else {
      assert !PlaylistOk(fold, t', op.pid);
    }
  }

  lemma RenameLeavesOk(fold: Fold, t: Tables, op: Op, env: Env, p: string)
    requires Renaming(op) && !Breaks(fold, t, op, env) && PlaylistOk(fold, t, p)
    ensures PlaylistOk(fold, StepRename(fold, t, op, env).0, p)
  {
  }

  lemma DeleteBreaks(fold: Fold, t: Tables, op: Op, env: Env)
    requires Deleting(op) && Breaks(fold, t, op, env)
    ensures !Consistent(fold, StepDelete(fold, t, op, env).0)
  {
    hide Items, Videos, ItemOrder.Sorted;
    var t' := StepDelete(fold, t, op, env).0;
    if op.DeleteRelease? {
      assert !PlaylistOk(fold, t', t.names[(op.user, fold(op.oldName))]);
    } else {
      assert (t.byId[op.pid].user, op.pid) in t'.byUser && !PlaylistOk(fold, t', op.pid);
    }
  }

  lemma DeleteLeavesOk(fold: Fold, t: Tables, op: Op, env: Env, p: string)
    requires Deleting(op) && !Breaks(fold, t, op, env) && PlaylistOk(fold, t, p)
    ensures PlaylistOk(fold, StepDelete(fold, t, op, env).0, p)
  {
    hide Items, Videos, ItemOrder.Sorted;
  }

  lemma AddBreaks(fold: Fold, t: Tables, op: Op, env: Env)
    requires Adding(op) && Breaks(fold, t, op, env)
    ensures !PlaylistOk(fold, StepAdd(t, op, env).0, op.pid)
  {
    hide Items, Prepended;
  }

  lemma AddLeavesOk(fold: Fold, t: Tables, op: Op, env: Env, p: string)
    requires Adding(op) && !Breaks(fold, t, op, env) && PlaylistOk(fold, t, p)
    ensures PlaylistOk(fold, StepAdd(t, op, env).0, p)
  {
    hide Items, Prepended;
  }

  lemma RemoveBreaks(fold: Fold, t: Tables, op: Op, env: Env)
    requires Removing(op) && Breaks(fold, t, op, env)
    ensures !PlaylistOk(fold, StepRemove(t, op, env).0, op.pid)
  {
    hide Items, Recomputed, OneLess;
  }

  lemma RemoveLeavesOk(fold: Fold, t: Tables, op: Op, env: Env, p: string)
    requires Removing(op) && !Breaks(fold, t, op, env) && PlaylistOk(fold, t, p)
    ensures PlaylistOk(fold, StepRemove(t, op, env).0, p)
  {
    hide Items, Recomputed, OneLess;
  }

  lemma BreakingBreaks(fold: Fold, t: Tables, op: Op, env: Env)
    requires Breaks(fold, t, op, env)
    ensures !Consistent(fold, Step(fold, t, op, env).0)
  {
    assert !op.Done?;
    hide Breaks, PlaylistOk, StepCreate, StepRename, StepDelete, StepAdd, StepRemove;
    if Creating(op) {
      CreateBreaks(fold, t, op, env);
    } else if Renaming(op) {
      RenameBreaks(fold, t, op, env);
    } else if Deleting(op) {
      DeleteBreaks(fold, t, op, env);
    } else if Adding(op) {
      AddBreaks(fold, t, op, env);
    } else {
      RemoveBreaks(fold, t, op, env);
    }
  }

  lemma StepLeavesOk(fold: Fold, t: Tables, op: Op, env: Env, p: string)
    requires !Breaks(fold, t, op, env) && PlaylistOk(fold, t, p)
    ensures PlaylistOk(fold, Step(fold, t, op, env).0, p)
  {
    hide Breaks, PlaylistOk, StepCreate, StepRename, StepDelete, StepAdd, StepRemove;
    if Creating(op) {
      CreateLeavesOk(fold, t, op, env, p);
    } else if Renaming(op) {
      RenameLeavesOk(fold, t, op, env, p);
    } else if Deleting(op) {
      DeleteLeavesOk(fold, t, op, env, p);
    } else if Adding(op) {
      AddLeavesOk(fold, t, op, env, p);
    } else if Removing(op) {
      RemoveLeavesOk(fold, t, op, env, p);
    }
  }

  /** From tables in order, whatever else runs on them: one operation of a handler leaves
      every live playlist's name reserved to it and every listed playlist with its owner
      if and only if it is none of those that break them. */
  lemma StepBreaksIff(fold: Fold, t: Tables, op: Op, env: Env)
    requires Consistent(fold, t)
    ensures Consistent(fold, Step(fold, t, op, env).0) <==> !Breaks(fold, t, op, env)
  {
    hide Breaks, PlaylistOk, Step;
    if Breaks(fold, t, op, env) {
      hide Consistent;
      BreakingBreaks(fold, t, op, env);
    } else {
      forall p
        ensures PlaylistOk(fold, Step(fold, t, op, env).0, p)
      {
        StepLeavesOk(fold, t, op, env, p);
      }
    }
  }

  // ---- Every run ----------------------------------------------------------------------------

  predicate BreaksNow(fold: Fold, w: World, ev: Event) {
    ev.Advance? && ev.i < |w.ops| && Breaks(fold, w.tables, w.ops[ev.i], ev.env)
  }

  /** No step of the run breaks anything. */
  predicate BreaksNothing(fold: Fold, w: World, evs: seq<Event>)
    decreases |evs|
  {
    evs == [] || (!BreaksNow(fold, w, evs[0]) && BreaksNothing(fold, Next(fold, w, evs[0]), evs[1..]))
  }

  /** Names and ownership are in order in every state of the run. */
  ghost predicate AlwaysConsistent(fold: Fold, w: World, evs: seq<Event>)
    decreases |evs|
  {
    Consistent(fold, w.tables) && (evs == [] || AlwaysConsistent(fold, Next(fold, w, evs[0]), evs[1..]))
  }

  lemma NextBreaksIff(fold: Fold, w: World, ev: Event)
    requires Consistent(fold, w.tables)
    ensures Consistent(fold, Next(fold, w, ev).tables) <==> !BreaksNow(fold, w, ev)
  {
    hide Breaks, Step, Consistent;
    if ev.Advance? && ev.i < |w.ops| {
      StepBreaksIff(fold, w.tables, w.ops[ev.i], ev.env);
    }
  }

  /** Over every run of any handlers, overlapping as they like and stopping anywhere:
      names and ownership are in order throughout if and only if no step breaks them. */
  lemma {:induction false} AlwaysConsistentIff(fold: Fold, w: World, evs: seq<Event>)
    requires Consistent(fold, w.tables)
    ensures AlwaysConsistent(fold, w, evs) <==> BreaksNothing(fold, w, evs)
    decreases |evs|
  {
    hide Next, BreaksNow, Consistent;
    if evs != [] {
      NextBreaksIff(fold, w, evs[0]);
      if !BreaksNow(fold, w, evs[0]) {
        AlwaysConsistentIff(fold, Next(fold, w, evs[0]), evs[1..]);
      }
    }
  }

  lemma {:induction false} InvIsAlwaysConsistent(fold: Fold, w: World, evs: seq<Event>)
    requires Inv(fold, w) && CanRun(fold, w, evs)
    ensures AlwaysConsistent(fold, w, evs)
    decreases |evs|
  {
    assert Consistent(fold, w.tables);
    hide Inv, Next, Enabled, Consistent;
    if evs != [] {
      NextKeeps(fold, w, evs[0]);
      InvIsAlwaysConsistent(fold, Next(fold, w, evs[0]), evs[1..]);
    }
  }

  /** Handlers that overlap only as they may break nothing. */
  lemma MayOverlapBreaksNothing(fold: Fold, t: Tables, evs: seq<Event>)
    requires Consistent(fold, t) && CanRun(fold, World(t, []), evs)
    ensures BreaksNothing(fold, World(t, []), evs)
  {
    assert Inv(fold, World(t, []));
    hide Inv, CanRun, AlwaysConsistent, BreaksNothing, PlaylistOk;
    InvIsAlwaysConsistent(fold, World(t, []), evs);
    AlwaysConsistentIff(fold, World(t, []), evs);
  }
}
