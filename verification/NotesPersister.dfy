/** createNotesPersister in place (apps/web/src/briefView.ts): the closure's variables as
    fields, each uninterrupted piece of code as a method, held against NotesModel. */
module NotesPersisterObject {
  import opened Wrappers
  import opened NotesModel
  import opened NotesLaws

  class NotesPersister<N(==)> {
    var timer: bool
    var pending: Option<Edit<N>>
    var current: Option<nat>
    // The suspended calls of run() and flush().
    var runs: seq<Phase>
    var flushers: seq<Flusher>
    // What schedule() and patch() have been given.
    var scheduled: seq<N>
    var sent: seq<Edit<N>>
    ghost var droppedNewest: bool

    ghost function View(): Persister<N>
      reads this
    {
      Persister(timer, pending, current, runs, flushers, scheduled, sent, droppedNewest)
    }

    ghost predicate Valid()
      reads this
    {
      Inv(View())
    }

    constructor ()
      ensures Valid() && View() == Fresh<N>()
    {
      timer, pending, current := false, None, None;
      runs, flushers, scheduled, sent, droppedNewest := [], [], [], [], false;
      new;
      FreshInv<N>();
    }

    /** run() up to its first await. */
    method Run()
      modifies this
      ensures View() == RunCall(old(View()))
    {
      if current.Some? || pending.None? {
        return;
      }
      var value := pending.value;
      pending := None;
      sent := sent + [value];
      current := Some(|runs|);
      runs := runs + [InFlight];
    }

    method Schedule(next: N)
      requires Valid()
      modifies this
      ensures Valid() && View() == NotesModel.Schedule(old(View()), next)
    {
      NextKeepsInv(View(), Schedules(next));
      pending := Some(Edit(|scheduled|, next));
      scheduled := scheduled + [next];
      droppedNewest := false;
      timer := true;
    }

    method TimerFires()
      requires Valid() && timer
      modifies this
      ensures Valid() && View() == Fire(old(View()))
    {
      NextKeepsInv(View(), Fires);
      timer := false;
      Run();
    }

    /** The PATCH in flight settles: the finally block clears `current`. */
    method PatchSettles(ok: bool)
      requires Valid() && current.Some?
      modifies this
      ensures Valid() && View() == Settle(old(View()), ok)
    {
      NextKeepsInv(View(), Settles(ok));
      runs := runs[current.value := Settled(ok)];
      current := None;
    }

    /** run() continues after `await current`. */
    method RunResumes(k: nat)
      requires Valid() && k < |runs| && runs[k].Settled?
      modifies this
      ensures Valid() && View() == ResumeRun(old(View()), k)
    {
      NextKeepsInv(View(), NotesModel.RunResumes(k));
      var ok := runs[k].ok;
      runs := runs[k := Finished(ok)];
      if ok && pending.Some? {
        Run();
      }
    }

    /** The test of flush's drain loop, up to the next await of flusher `f`. */
    method DrainStep(f: nat)
      requires f < |flushers|
      modifies this
      ensures View() == LoopTest(old(View()), f)
    {
      if pending.Some? || current.Some? {
        if current.Some? {
          flushers := flushers[f := OnPatch(current.value)];
        } else {
          var mine := |runs|;
          Run();
          flushers := flushers[f := OnRun(mine)];
        }
      } else {
        flushers := flushers[f := Drained];
      }
    }

    method Flush() returns (f: nat)
      requires Valid()
      modifies this
      ensures Valid() && View() == NotesModel.Flush(old(View())) && f == |old(flushers)|
      ensures flushers[f].Drained? ==>
                pending.None? && current.None? && (scheduled == [] || droppedNewest || NewestSent(View()))
    {
      NextKeepsInv(View(), Flushes);
      timer := false;
      f := |flushers|;
      flushers := flushers + [Drained];
      DrainStep(f);
    }

    method FlushResumes(f: nat)
      requires Valid() && Resumable(View(), f)
      modifies this
      ensures Valid() && View() == ResumeFlush(old(View()), f)
      ensures flushers[f].Drained? ==>
                pending.None? && current.None? && (scheduled == [] || droppedNewest || NewestSent(View()))
    {
      NextKeepsInv(View(), NotesModel.FlushResumes(f));
      if runs[flushers[f].k].ok {
        DrainStep(f);
      } else {
        flushers := flushers[f := Failed];
      }
    }

    method Dispose()
      requires Valid()
      modifies this
      ensures Valid() && View() == NotesModel.Dispose(old(View()))
    {
      NextKeepsInv(View(), Disposes);
      timer := false;
      if current.None? {
        droppedNewest := droppedNewest || pending.Some?;
        pending := None;
      }
    }
  }
}
