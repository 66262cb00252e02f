/** Memberships without an item: exactly when concurrent adds leave one behind. */
module PlaylistHalves {
  import opened ItemOrder
  import opened PlaylistTables
  import opened PlaylistHandlers
  import opened PlaylistNames
  import opened PlaylistAdds

  /** The owner's playlist has the video as a member, but not as an item. */
  predicate HalfAdded(t: Tables, user: int, video: string, pid: string) {
    && Owned(t, user, pid) && (user, video, pid) in t.byVideo
    && Key(t.byVideo[(user, video, pid)], video) !in Items(t, pid)
  }

  /** The handler is about to insert the item. */
  predicate Completes(op: Op, user: int, video: string, pid: string) {
    op.AddItem? && op.user == user && op.video == video && op.pid == pid
  }

  /** No handler will complete it. */
  predicate Stuck(w: World, user: int, video: string, pid: string) {
    && HalfAdded(w.tables, user, video, pid)
    && forall i :: 0 <= i < |w.ops| ==> !Completes(w.ops[i], user, video, pid)
  }

  ghost predicate NoneStuck(w: World) { forall user, video, pid :: !Stuck(w, user, video, pid) }

  // ---- One step -----------------------------------------------------------------------------

  /** What a step does to memberships without an item: claiming makes one, inserting
      completes it, and nothing else matters. */
  lemma StepHalves(t: Tables, op: Op, env: Env, user: int, video: string, pid: string)
    requires Adding(op) && AddOk(t, op)
    ensures var (t', next) := StepAdd(t, op, env);
            && (HalfAdded(t', user, video, pid) ==>
                  HalfAdded(t, user, video, pid) || (op.AddClaim? && Completes(next, user, video, pid)))
            && (HalfAdded(t, user, video, pid) ==>
                  HalfAdded(t', user, video, pid) || Completes(op, user, video, pid))
            && (Completes(op, user, video, pid) ==> !HalfAdded(t', user, video, pid))
  {
    if op.AddItem? {
      InsertedItem(t, op, env);
      if pid != op.pid {
        StepKeepsItems(t, op, env, pid);
      }
    } else {
      StepKeepsItems(t, op, env, pid);
    }
    hide Items, Prepended;
  }

  lemma StepCompletes(t: Tables, op: Op, env: Env, user: int, video: string, pid: string)
    requires Adding(op)
    ensures Completes(StepAdd(t, op, env).1, user, video, pid) ==>
              op.AddClaim? && (user, video, pid) !in t.byVideo
  {
    hide Items, Prepended, Recounted, IdRow, UserRow;
  }

  /** The handler at i, and what it is next. */
  lemma AdvanceShape(fold: Fold, w: World, i: nat, env: Env)
    requires i < |w.ops| && Adding(w.ops[i])
    ensures var w' := Next(fold, w, Advance(i, env));
            var (t', next) := StepAdd(w.tables, w.ops[i], env);
            w'.tables == t' && w'.ops == w.ops[i := next]
  {
    hide StepAdd;
  }

  lemma AdvanceStuckIff(fold: Fold, w: World, i: nat, env: Env, user: int, video: string, pid: string)
    requires AddInv(w) && i < |w.ops| && Adding(w.ops[i])
    ensures Stuck(Next(fold, w, Advance(i, env)), user, video, pid) <==> Stuck(w, user, video, pid)
  {
    var op := w.ops[i];
    assert AddOk(w.tables, op);
    AdvanceShape(fold, w, i, env);
    StepHalves(w.tables, op, env, user, video, pid);
    StepCompletes(w.tables, op, env, user, video, pid);
    var w' := Next(fold, w, Advance(i, env));
    assert HalfAdded(w.tables, user, video, pid) ==> (user, video, pid) in w.tables.byVideo;
    hide AddInv, Next, StepAdd, AddOk, HalfAdded, Completes;
    if HalfAdded(w.tables, user, video, pid) && !Stuck(w, user, video, pid) {
      var j :| 0 <= j < |w.ops| && Completes(w.ops[j], user, video, pid);
      assert j != i ==> Completes(w'.ops[j], user, video, pid);
    }
    if Stuck(w, user, video, pid) {
      forall j | 0 <= j < |w'.ops|
        ensures !Completes(w'.ops[j], user, video, pid)
      {
        assert j != i ==> w'.ops[j] == w.ops[j];
      }
    } else if Completes(w'.ops[i], user, video, pid) {
      assert !Stuck(w', user, video, pid);
    }
  }

  lemma StoppingSticks(fold: Fold, w: World, i: nat)
    requires AddInv(w) && i < |w.ops| && w.ops[i].AddItem?
    ensures Stuck(Next(fold, w, Stop(i)), w.ops[i].user, w.ops[i].video, w.ops[i].pid)
  {
    var op := w.ops[i];
    assert AddOk(w.tables, op);
    forall j | 0 <= j < |w.ops| && j != i
      ensures !Completes(w.ops[j], op.user, op.video, op.pid)
    {
      assert Apart(w.ops[j], op) || Apart(op, w.ops[j]);
    }
  }

  lemma StopStuckIff(fold: Fold, w: World, i: nat, user: int, video: string, pid: string)
    requires i < |w.ops| && !Completes(w.ops[i], user, video, pid)
    ensures Stuck(Next(fold, w, Stop(i)), user, video, pid) <==> Stuck(w, user, video, pid)
  {
    var w' := Next(fold, w, Stop(i));
    hide HalfAdded;
    assert forall j :: 0 <= j < |w.ops| && j != i ==> w'.ops[j] == w.ops[j];
  }

  /** The handler stops between claiming the membership and inserting the item. */
  predicate StopsHalfway(w: World, ev: Event) { ev.Stop? && ev.i < |w.ops| && w.ops[ev.i].AddItem? }

  lemma OtherStuckIff(fold: Fold, w: World, ev: Event, user: int, video: string, pid: string)
    requires AddInv(w) && (ev.Start? ==> ev.op.AddLoad?)
    requires ev.Stop? && ev.i < |w.ops| ==> !Completes(w.ops[ev.i], user, video, pid)
    ensures Stuck(Next(fold, w, ev), user, video, pid) <==> Stuck(w, user, video, pid)
  {
    match ev
    case Start(op) =>
      hide HalfAdded;
      assert (w.ops + [op])[..|w.ops|] == w.ops && !Completes(op, user, video, pid);
      assert forall j :: 0 <= j < |w.ops| ==> (w.ops + [op])[j] == w.ops[j];
    case Stop(i) =>
      if i < |w.ops| {
        hide AddInv, Stuck, Completes;
        StopStuckIff(fold, w, i, user, video, pid);
      }
    case Advance(i, env) =>
      if i < |w.ops| {
        assert AddOk(w.tables, w.ops[i]) && (Adding(w.ops[i]) || w.ops[i].Done?);
        hide AddInv, Stuck, Completes, AddOk, StepAdd;
        if w.ops[i].Done? {
          assert Next(fold, w, ev) == w;
        } else {
          AdvanceStuckIff(fold, w, i, env, user, video, pid);
        }
      }
  }

  /** A membership is left without an item by exactly these events, and for good. */
  lemma NoneStuckIff(fold: Fold, w: World, ev: Event)
    requires AddInv(w) && (ev.Start? ==> ev.op.AddLoad?)
    ensures NoneStuck(w) ==> (NoneStuck(Next(fold, w, ev)) <==> !StopsHalfway(w, ev))
    ensures !NoneStuck(w) ==> !NoneStuck(Next(fold, w, ev))
  {
    hide AddInv, Stuck, Next;
    if StopsHalfway(w, ev) {
      StoppingSticks(fold, w, ev.i);
    } else {
      forall user, video, pid
        ensures Stuck(Next(fold, w, ev), user, video, pid) <==> Stuck(w, user, video, pid)
      {
        OtherStuckIff(fold, w, ev, user, video, pid);
      }
    }
  }

  // ---- Every run ----------------------------------------------------------------------------

  /** No handler of the run stops halfway. */
  predicate NoneHalfway(fold: Fold, w: World, evs: seq<Event>)
    decreases |evs|
  {
    evs == [] || (!StopsHalfway(w, evs[0]) && NoneHalfway(fold, Next(fold, w, evs[0]), evs[1..]))
  }

  lemma {:induction false} RunNoneStuckIff(fold: Fold, w: World, evs: seq<Event>)
    requires AddInv(w) && AddsOnly(evs)
    ensures NoneStuck(w) ==> (NoneStuck(After(fold, w, evs)) <==> NoneHalfway(fold, w, evs))
    ensures !NoneStuck(w) ==> !NoneStuck(After(fold, w, evs))
    decreases |evs|
  {
    hide AddInv, Next, NoneStuck, StopsHalfway;
    if evs != [] {
      assert evs[0] in evs;
      NextKeepsAdds(fold, w, evs[0]);
      NoneStuckIff(fold, w, evs[0]);
      RunNoneStuckIff(fold, Next(fold, w, evs[0]), evs[1..]);
    }
  }

  /** After any interleaving of adds every member of a playlist is an item, or about to be
      inserted, if and only if it was so before and no handler stopped halfway. */
  lemma MembersAreItemsIff(fold: Fold, t: Tables, evs: seq<Event>)
    requires (forall p :: SafePlaylist(t, p)) && AddsOnly(evs)
    ensures NoneStuck(After(fold, World(t, []), evs))
       <==> NoneStuck(World(t, [])) && NoneHalfway(fold, World(t, []), evs)
  {
    assert AddInv(World(t, []));
    hide AddInv, After, NoneHalfway, NoneStuck, SafePlaylist;
    RunNoneStuckIff(fold, World(t, []), evs);
  }
}
