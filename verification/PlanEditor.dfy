/** The save and commit functions of apps/web/src/PlanEditor.tsx in place: the refs as
    fields, each uninterrupted piece of code as a method, held against PlanSaveModel. */
module PlanEditorObject {
  import opened Wrappers
  import opened PlanSaveModel
  import opened PlanSaveLaws

  class PlanEditor<J(==)> {
    // draftRef, savedJsonRef, savingRef, savingPromiseRef and busy.
    var draft: Option<J>
    var saved: Option<J>
    var saving: bool
    var promise: Option<nat>
    var busy: bool
    // The draft PUTs sent, and the suspended calls.
    var puts: seq<Put<J>>
    var callers: seq<Caller<J>>
    // The other side of the network.
    ghost var versions: seq<Option<J>>
    ghost var gets: seq<Get<J>>
    ghost var committed: seq<J>
    // Where the baseline comes from.
    ghost var track: Track

    ghost function View(): Editor<J>
      reads this
    {
      Editor(draft, saved, saving, promise, busy, puts, callers, versions, gets, committed)
    }

    ghost predicate Valid()
      reads this
    {
      Inv(View()) && Tracks(View(), track)
    }

    /** The event has led from that state, with that account, to the present one. */
    ghost predicate Follows(was: Editor<J>, account: Track, e: Event<J>)
      reads this
    {
      Enabled(was, e) && View() == Next(was, e) && track == Follow(account, e)
    }

    constructor (ghost stored: Option<J>)
      ensures Valid() && View() == Mounted(stored) && track == START
    {
      draft, saved, saving, promise, busy := None, None, false, None, false;
      puts, callers, versions, gets, committed, track := [], [], [stored], [], [], START;
      new;
      MountedInv(stored);
    }

    method UpdateDraft(next: J)
      requires Valid() && Enabled(View(), Edits(next))
      modifies this
      ensures Valid() && Follows(old(View()), old(track), Edits(next)) && draft == Some(next)
    {
      NextTracks(View(), track, Edits(next));
      NextKeepsInv(View(), Edits(next));
      draft := Some(next);
    }

    /** adoptDraft of the answer to GET `g`, however old it is. */
    method AdoptDraft(next: J, ghost g: nat)
      requires Valid() && Enabled(View(), Delivers(g)) && next == gets[g].copy
      modifies this
      ensures Valid() && Follows(old(View()), old(track), Delivers(g)) && draft == saved == Some(next)
    {
      NextTracks(View(), track, Delivers(g));
      NextKeepsInv(View(), Delivers(g));
      draft := Some(next);
      saved := Some(next);
      gets := gets[g := gets[g].(delivered := true)];
      ghost var delivery: Event<J> := Delivers(g);
      track := Follow(track, delivery);
    }

    /** persistDraft of caller `c`, from the top of its loop to its next await or return. */
    method PersistDraft(c: nat)
      requires c < |callers|
      modifies this
      ensures View() == Enter(old(View()), c) && track == old(track)
    {
      if saving && promise.Some? {
        callers := callers[c := callers[c].(place := Waiting(promise.value))];
        return;
      }
      var payload := draft;
      if payload.None? {
        callers := callers[c := callers[c].(place := Returned(Outcome(false)))];
        return;
      }
      if saved == payload {
        callers := callers[c := callers[c].(place := Returned(Outcome(true)))];
        return;
      }
      saving := true;
      promise := Some(|puts|);
      callers := callers[c := callers[c].(place := Own(|puts|))];
      puts := puts + [Put(payload.value, OnItsWay)];
    }

    /** The PUT in flight is answered: its try, catch and finally blocks. */
    method PutAnswers(ok: bool)
      requires Valid() && Enabled(View(), PlanSaveModel.PutAnswers(ok))
      modifies this
      ensures Valid() && Follows(old(View()), old(track), PlanSaveModel.PutAnswers(ok)) && View() == Answer(old(View()), ok)
    {
      NextTracks(View(), track, PlanSaveModel.PutAnswers(ok));
      NextKeepsInv(View(), PlanSaveModel.PutAnswers(ok));
      var k := promise.value;
      if ok {
        saved := Some(puts[k].payload);
      }
      puts := puts[k := puts[k].(status := if ok then Succeeded else Failed)];
      saving := false;
      promise := None;
      ghost var answer: Event<J> := PlanSaveModel.PutAnswers(ok);
      track := Follow(track, answer);
    }

    /** An autosave, saveDraft or build3d is entered and runs up to its first await. */
    method Begin(kind: Kind) returns (c: nat)
      requires Valid() && Enabled(View(), Calls(kind))
      modifies this
      ensures Valid() && Follows(old(View()), old(track), Calls(kind)) && View() == Call(old(View()), kind) && c == |old(callers)|
    {
      NextTracks(View(), track, Calls(kind));
      NextKeepsInv(View(), Calls(kind));
      c := |callers|;
      if !kind.Autosave? {
        busy := true;
      }
      callers := callers + [Caller(kind, Done)];
      PersistDraft(c);
    }

    method Finish(c: nat)
      requires c < |callers|
      modifies this
      ensures View() == PlanSaveModel.Finish(old(View()), c) && track == old(track)
    {
      if !callers[c].kind.Autosave? {
        busy := false;
      }
      callers := callers[c := callers[c].(place := Done)];
    }

    /** One turn of flushPendingSave after its persistDraft has resolved; past the last pass
        its final comparison can only fail. */
    method FlushTurn(c: nat, outcome: Outcome)
      requires c < |callers| && callers[c].kind.Build?
      modifies this
      ensures View() == AfterPersist(old(View()), c, outcome) && track == old(track)
    {
      if !outcome.ok {
        Finish(c);
        return;
      }
      var payload := draft;
      if payload.None? {
        Finish(c);
        return;
      }
      if saved == payload {
        callers := callers[c := callers[c].(place := CommitDue)];
        return;
      }
      var attempt := callers[c].kind.attempt + 1;
      if attempt < MAX_PASSES {
        callers := callers[c := callers[c].(kind := Build(attempt))];
        PersistDraft(c);
      } else {
        assert saved != draft;
        Finish(c);
      }
    }

    /** A due continuation runs. When it sends the commit, no PUT is in flight and the server
        holds the draft the editor shows, exactly if the baseline is not out of date. */
    method Continue(c: nat)
      requires Valid() && Runnable(View(), c)
      modifies this
      ensures Valid() && Follows(old(View()), old(track), Continues(c)) && View() == Resume(old(View()), c)
      ensures callers[c].place.Committing? ==>
                && !saving && draft == saved == Some(callers[c].place.plan)
                && BaselineIsExplained(View(), track)
    {
      hide BaselineIsExplained, Inv, Tracks, Resume, Runnable, Enter, AfterPersist;
      NextTracks(View(), track, Continues(c));
      NextKeepsInv(View(), Continues(c));
      ResumeCommits(View(), track, c);
      Proceed(c);
    }

    method Proceed(c: nat)
      requires Runnable(View(), c)
      modifies this
      ensures View() == Resume(old(View()), c) && track == old(track)
    {
      match callers[c].place {
        case Waiting(_) =>
          PersistDraft(c);
        case Own(k) =>
          callers := callers[c := callers[c].(place := Returned(Outcome(puts[k].status.Succeeded?)))];
        case Returned(outcome) =>
          if callers[c].kind.Build? {
            FlushTurn(c, outcome);
          } else {
            Finish(c);
          }
        case CommitDue =>
          if draft.Some? {
            callers := callers[c := callers[c].(place := Committing(draft.value))];
          }
      }
    }

    /** commitPlanDraft is answered, with or without an error: the finally block of build3d. */
    method CommitAnswers(c: nat)
      requires Valid() && Enabled(View(), PlanSaveModel.CommitAnswers(c))
      modifies this
      ensures Valid() && Follows(old(View()), old(track), PlanSaveModel.CommitAnswers(c)) && View() == PlanSaveModel.Finish(old(View()), c)
    {
      NextTracks(View(), track, PlanSaveModel.CommitAnswers(c));
      NextKeepsInv(View(), PlanSaveModel.CommitAnswers(c));
      Finish(c);
    }

    /** The server answers a GET with its present copy. */
    ghost method ServerAnswers()
      requires Valid() && Enabled(View(), Fetches)
      modifies this
      ensures Valid() && Follows(old(View()), old(track), Fetches)
    {
      NextTracks(View(), track, Fetches);
      NextKeepsInv(View(), Fetches);
      var e: Event<J> := Fetches;
      gets := gets + [Get(Server(View()).value, false)];
      track := Follow(track, e);
    }

    /** The server stores the payload of the PUT in flight. */
    method ServerStores()
      requires Valid() && Enabled(View(), PutApplies)
      modifies this
      ensures Valid() && Follows(old(View()), old(track), PutApplies)
    {
      NextTracks(View(), track, PutApplies);
      NextKeepsInv(View(), PutApplies);
      ghost var e: Event<J> := PutApplies;
      var put := puts[promise.value];
      versions := versions + [Some(put.payload)];
      puts := puts[promise.value := put.(status := Applied)];
      track := Follow(track, e);
    }

    /** The server builds the scene from its present copy. */
    ghost method ServerBuilds(c: nat)
      requires Valid() && Enabled(View(), CommitApplies(c))
      modifies this
      ensures Valid() && Follows(old(View()), old(track), CommitApplies(c))
    {
      NextTracks(View(), track, CommitApplies(c));
      NextKeepsInv(View(), CommitApplies(c));
      committed := committed + [Server(View()).value];
    }
  }
}
