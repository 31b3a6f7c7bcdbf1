/** What every run of the save protocol keeps, and what a 3D commit commits. */
module PlanSaveLaws {
  import opened Wrappers
  import opened PlanSaveModel

  // ---------------------------------------------------------------------
  // The invariant
  // ---------------------------------------------------------------------

  /** The flag and the promise agree, and name the only PUT in flight. */
  ghost predicate OnePut<J>(s: Editor<J>) {
    && (s.saving <==> s.promise.Some?)
    && (s.promise.Some? ==> s.promise.value < |s.puts| && Active(s.puts[s.promise.value].status))
    && (forall k | 0 <= k < |s.puts| && Active(s.puts[k].status) :: s.promise == Some(k))
  }

  /** A PUT in flight while continuations are due was sent by one of them, for the draft as it is. */
  ghost predicate PutIsCurrent<J>(s: Editor<J>)
    requires OnePut(s)
  {
    s.promise.Some? && !Idle(s) ==> s.draft == Some(s.puts[s.promise.value].payload) && s.saved != s.draft
  }

  ghost predicate CallerOk<J>(s: Editor<J>, c: nat)
    requires c < |s.callers|
  {
    && (s.callers[c].kind.Build? ==> s.callers[c].kind.attempt < MAX_PASSES)
    && (s.callers[c].place.CommitDue? || s.callers[c].place.Committing? ==> s.callers[c].kind.Build?)
    && (match s.callers[c].place
        case Waiting(k) => k < |s.puts|
        case Own(k) => k < |s.puts|
        case CommitDue => !s.saving && Clean(s)
        case Committing(plan) => !s.saving && s.draft.Some? && (Idle(s) || (Clean(s) && s.draft == Some(plan)))
        case _ => true)
  }

  /** A manual save or build that is not over. */
  predicate Exclusive<J>(caller: Caller<J>) { !caller.kind.Autosave? && !caller.place.Done? }

  /** `busy` says exactly that one manual save or build is under way. */
  ghost predicate BusyCounts<J>(s: Editor<J>) {
    && (forall c | 0 <= c < |s.callers| && Exclusive(s.callers[c]) :: s.busy)
    && (forall c, d | 0 <= c < |s.callers| && 0 <= d < |s.callers| && Exclusive(s.callers[c]) && Exclusive(s.callers[d]) :: c == d)
  }

  ghost predicate Inv<J>(s: Editor<J>) {
    && OnePut(s) && PutIsCurrent(s) && BusyCounts(s)
    && (s.draft.None? ==> s.callers == [] && s.puts == [])
    && forall c | 0 <= c < |s.callers| :: CallerOk(s, c)
  }

  lemma MountedInv<J>(server: Option<J>)
    ensures Inv(Mounted(server))
  {
  }

  // ---------------------------------------------------------------------
  // Preservation, event by event
  // ---------------------------------------------------------------------

  /** What persistDraft does when entered by a caller that was due, or is new at an idle moment. */
  lemma EnterKeeps<J>(s: Editor<J>, c: nat)
    requires c < |s.callers| && s.draft.Some?
    requires OnePut(s) && BusyCounts(s) && PutIsCurrent(s)
    requires !s.callers[c].place.CommitDue? && !s.callers[c].place.Committing?
    requires s.callers[c].kind.Build? ==> s.callers[c].kind.attempt < MAX_PASSES
    requires s.callers[c].place.Done? ==> s.callers[c].kind.Autosave? || (s.busy && forall d | 0 <= d < |s.callers| :: !Exclusive(s.callers[d]))
    requires forall d | 0 <= d < |s.callers| && d != c :: CallerOk(s, d)
    requires !Clean(s) ==> forall d | 0 <= d < |s.callers| :: !s.callers[d].place.Committing?
    requires forall d | 0 <= d < |s.callers| && s.callers[d].place.Committing? :: s.draft == Some(s.callers[d].place.plan)
    ensures Inv(Enter(s, c))
  {
    var t := Enter(s, c);
    forall d | 0 <= d < |t.callers| ensures CallerOk(t, d) {
      if d != c {
        assert CallerOk(s, d);
      }
    }
    if t.promise.Some? && !Idle(t) {
      var d :| 0 <= d < |t.callers| && Runnable(t, d);
      assert d != c;
      if s.promise.Some? {
        assert Runnable(s, d);
      }
    }
  }

  /** A due continuation means any commit on its way is of the current, clean draft. */
  lemma DueMeansCommitCurrent<J>(s: Editor<J>, c: nat, d: nat)
    requires Inv(s) && Runnable(s, c) && d < |s.callers| && s.callers[d].place.Committing?
    ensures Clean(s) && s.draft == Some(s.callers[d].place.plan)
  {
    assert CallerOk(s, d);
  }

  lemma ResumeKeeps<J>(s: Editor<J>, c: nat)
    requires Inv(s) && Runnable(s, c)
    ensures Inv(Resume(s, c))
  {
    assert CallerOk(s, c);
    forall d | 0 <= d < |s.callers| && s.callers[d].place.Committing?
      ensures Clean(s) && s.draft == Some(s.callers[d].place.plan)
    {
      DueMeansCommitCurrent(s, c, d);
    }
    match s.callers[c].place {
      case Waiting(_) => EnterKeeps(s, c);
      case Own(k) => OwnReturns(s, c, Outcome(s.puts[k].status.Succeeded?));
      case Returned(outcome) => AfterPersistKeeps(s, c, outcome);
      case CommitDue => CommitLeaves(s, c);
    }
  }

  lemma OwnReturns<J>(s: Editor<J>, c: nat, outcome: Outcome)
    requires Inv(s) && Runnable(s, c) && s.callers[c].place.Own?
    ensures Inv(At(s, c, Returned(outcome)))
  {
    var t := At(s, c, Returned(outcome));
    forall d | 0 <= d < |t.callers| ensures CallerOk(t, d) {
      assert CallerOk(s, d);
    }
  }

  lemma CommitLeaves<J>(s: Editor<J>, c: nat)
    requires Inv(s) && c < |s.callers| && s.callers[c].place.CommitDue?
    ensures s.draft.Some? && Inv(At(s, c, Committing(s.draft.value)))
  {
    assert CallerOk(s, c);
    var t := At(s, c, Committing(s.draft.value));
    assert Runnable(s, c);
    forall d | 0 <= d < |t.callers| ensures CallerOk(t, d) {
      assert CallerOk(s, d);
      if s.callers[d].place.Committing? {
        DueMeansCommitCurrent(s, c, d);
      }
    }
  }

  lemma FinishKeeps<J>(s: Editor<J>, c: nat)
    requires Inv(s) && c < |s.callers|
    requires Runnable(s, c) || (Idle(s) && s.callers[c].place.Committing?)
    ensures Inv(Finish(s, c))
  {
    var t := Finish(s, c);
    if Idle(s) {
      forall d | 0 <= d < |t.callers| ensures !Runnable(t, d) {
        assert !Runnable(s, d);
      }
    }
    forall d | 0 <= d < |t.callers| ensures CallerOk(t, d) {
      assert CallerOk(s, d);
    }
    if t.promise.Some? && !Idle(t) {
      var d :| 0 <= d < |t.callers| && Runnable(t, d);
      assert Runnable(s, d);
    }
  }

  lemma AfterPersistKeeps<J>(s: Editor<J>, c: nat, outcome: Outcome)
    requires Inv(s) && Runnable(s, c) && s.callers[c].place == Returned(outcome)
    ensures Inv(AfterPersist(s, c, outcome))
  {
    assert CallerOk(s, c);
    match s.callers[c].kind {
      case Autosave => FinishKeeps(s, c);
      case Manual => FinishKeeps(s, c);
      case Build(attempt) =>
        if !outcome.ok || s.draft.None? {
          FinishKeeps(s, c);
        } else if Clean(s) {
          FlushSucceeds(s, c);
        } else if attempt + 1 < MAX_PASSES {
          NextPass(s, c);
        } else {
          FinishKeeps(s, c);
        }
    }
  }

  /** flushPendingSave finding the draft clean means no PUT is in flight. */
  lemma FlushSucceeds<J>(s: Editor<J>, c: nat)
    requires Inv(s) && Runnable(s, c) && s.callers[c].kind.Build? && Clean(s)
    ensures !s.saving
    ensures Inv(At(s, c, CommitDue))
  {
    assert !Idle(s);
    var t := At(s, c, CommitDue);
    forall d | 0 <= d < |t.callers| ensures CallerOk(t, d) {
      assert CallerOk(s, d);
      if s.callers[d].place.Committing? {
        DueMeansCommitCurrent(s, c, d);
      }
    }
  }

  lemma NextPass<J>(s: Editor<J>, c: nat)
    requires Inv(s) && Runnable(s, c) && s.callers[c].kind.Build? && s.callers[c].kind.attempt + 1 < MAX_PASSES
    requires s.callers[c].place.Returned? && s.draft.Some? && !Clean(s)
    ensures Inv(Enter(s.(callers := s.callers[c := s.callers[c].(kind := Build(s.callers[c].kind.attempt + 1))]), c))
  {
    var u := s.(callers := s.callers[c := s.callers[c].(kind := Build(s.callers[c].kind.attempt + 1))]);
    forall d | 0 <= d < |s.callers| && s.callers[d].place.Committing? ensures false {
      DueMeansCommitCurrent(s, c, d);
    }
    forall d | 0 <= d < |u.callers| && d != c ensures CallerOk(u, d) {
      assert CallerOk(s, d);
    }
    EnterKeeps(u, c);
  }

  lemma CallKeeps<J>(s: Editor<J>, kind: Kind)
    requires Inv(s) && Enabled(s, Calls(kind))
    ensures Inv(Call(s, kind))
  {
    var u := s.(busy := s.busy || !kind.Autosave?, callers := s.callers + [Caller(kind, Done)]);
    forall d | 0 <= d < |s.callers| ensures CallerOk(u, d) && !s.callers[d].place.Committing? {
      assert CallerOk(s, d);
      assert !Exclusive(s.callers[d]);
    }
    forall d | 0 <= d < |u.callers| ensures !Runnable(u, d) {
      assert d < |s.callers| ==> !Runnable(s, d);
    }
    EnterKeeps(u, |s.callers|);
  }

  lemma AnswerKeeps<J>(s: Editor<J>, ok: bool)
    requires Inv(s) && Enabled(s, PutAnswers(ok))
    ensures Inv(Answer(s, ok))
  {
    var t := Answer(s, ok);
    forall d | 0 <= d < |t.callers| ensures CallerOk(t, d) {
      assert CallerOk(s, d);
    }
  }

  lemma PutAppliesKeeps<J>(s: Editor<J>)
    requires Inv(s) && Enabled(s, PutApplies)
    ensures Inv(Next(s, PutApplies))
  {
    var t := Next(s, PutApplies);
    assert forall d | 0 <= d < |t.callers| :: Runnable(t, d) <==> Runnable(s, d);
    forall d | 0 <= d < |t.callers| ensures CallerOk(t, d) {
      assert CallerOk(s, d);
    }
  }

  /** Edits and adoptions happen when nothing is due, so nobody's pending decision is undercut. */
  lemma DraftChangeKeeps<J>(s: Editor<J>, draft: J, saved: Option<J>, gets: seq<Get<J>>)
    requires Inv(s) && Idle(s)
    requires s.draft.Some? || s.callers == []
    ensures Inv(s.(draft := Some(draft), saved := saved, gets := gets))
  {
    var t := s.(draft := Some(draft), saved := saved, gets := gets);
    assert forall d | 0 <= d < |t.callers| :: !Runnable(t, d) by {
      forall d | 0 <= d < |t.callers| ensures !Runnable(t, d) {
        assert !Runnable(s, d);
      }
    }
    forall d | 0 <= d < |t.callers| ensures CallerOk(t, d) {
      assert CallerOk(s, d);
      assert s.callers[d].place.CommitDue? ==> Runnable(s, d);
    }
  }

  /** Every event keeps the invariant. */
  lemma NextKeepsInv<J>(s: Editor<J>, e: Event<J>)
    requires Inv(s) && Enabled(s, e)
    ensures Inv(Next(s, e))
  {
    match e {
      case Edits(next) => DraftChangeKeeps(s, next, s.saved, s.gets);
      case Fetches => FetchKeeps(s);
      case Delivers(g) =>
        DraftChangeKeeps(s, s.gets[g].copy, Some(s.gets[g].copy), s.gets[g := s.gets[g].(delivered := true)]);
      case Calls(kind) => CallKeeps(s, kind);
      case Continues(c) => ResumeKeeps(s, c);
      case PutApplies => PutAppliesKeeps(s);
      case PutAnswers(ok) => AnswerKeeps(s, ok);
      case CommitApplies(c) => CommitAppliesKeeps(s, c);
      case CommitAnswers(c) => FinishKeeps(s, c);
    }
  }

  lemma FetchKeeps<J>(s: Editor<J>)
    requires Inv(s) && Enabled(s, Fetches)
    ensures Inv(Next(s, Fetches))
  {
    var t := Next(s, Fetches);
    assert forall d | 0 <= d < |t.callers| :: Runnable(t, d) <==> Runnable(s, d);
    forall d | 0 <= d < |t.callers| ensures CallerOk(t, d) {
      assert CallerOk(s, d);
    }
  }

  lemma CommitAppliesKeeps<J>(s: Editor<J>, c: nat)
    requires Inv(s) && Enabled(s, CommitApplies(c))
    ensures Inv(Next(s, CommitApplies(c)))
  {
    var t := Next(s, CommitApplies(c));
    assert forall d | 0 <= d < |t.callers| :: Runnable(t, d) <==> Runnable(s, d);
    forall d | 0 <= d < |t.callers| ensures CallerOk(t, d) {
      assert CallerOk(s, d);
    }
  }

  lemma {:induction false} RunKeepsInv<J>(s: Editor<J>, events: seq<Event<J>>)
    requires Inv(s) && CanRun(s, events)
    ensures Inv(After(s, events))
    decreases |events|
  {
    if events != [] {
      NextKeepsInv(s, events[0]);
      RunKeepsInv(Next(s, events[0]), events[1..]);
    }
  }

  // ---------------------------------------------------------------------
  // The baseline and the server's copies
  // ---------------------------------------------------------------------

  ghost predicate PutApplied<J>(s: Editor<J>)
    requires OnePut(s)
  {
    s.promise.Some? && s.puts[s.promise.value].status.Applied?
  }

  /** The events' account and the state agree: what each GET was answered with, and which of the
      server's copies the baseline is. */
  ghost predicate Tracks<J>(s: Editor<J>, t: Track)
    requires OnePut(s)
  {
    && |s.versions| == t.applied + 1 && |s.gets| == |t.seen|
    && (forall g | 0 <= g < |t.seen| :: t.seen[g] <= t.applied && s.versions[t.seen[g]] == Some(s.gets[g].copy))
    && (PutApplied(s) ==> Server(s) == Some(s.puts[s.promise.value].payload))
    && (s.draft.Some? ==> t.move != Unmoved)
    && (t.move.BySave? && !PutApplied(s) ==> s.saved == Server(s))
    && (t.move.ByDelivery? ==> t.move.g < |s.gets| && s.saved == Some(s.gets[t.move.g].copy))
  }

  /** The two states have the same baseline, server and GETs, and the same applied PUT, if any. */
  ghost predicate SameBaseline<J>(s: Editor<J>, u: Editor<J>) {
    && OnePut(s) && OnePut(u)
    && u.versions == s.versions && u.gets == s.gets && u.saved == s.saved && (u.draft.Some? <==> s.draft.Some?)
    && (PutApplied(u) <==> PutApplied(s))
    && (PutApplied(u) ==> u.puts[u.promise.value].payload == s.puts[s.promise.value].payload)
  }

  lemma SameBaselineTracks<J>(s: Editor<J>, u: Editor<J>, t: Track)
    requires SameBaseline(s, u) && Tracks(s, t)
    ensures Tracks(u, t)
  {
  }

  lemma EnterFrame<J>(s: Editor<J>, c: nat)
    requires c < |s.callers| && OnePut(s) && OnePut(Enter(s, c))
    ensures SameBaseline(s, Enter(s, c))
  {
  }

  lemma AfterPersistFrame<J>(s: Editor<J>, c: nat, outcome: Outcome)
    requires c < |s.callers| && OnePut(s) && OnePut(AfterPersist(s, c, outcome))
    ensures SameBaseline(s, AfterPersist(s, c, outcome))
  {
    if s.callers[c].kind.Build? {
      var u := s.(callers := s.callers[c := s.callers[c].(kind := Build(s.callers[c].kind.attempt + 1))]);
      assert SameBaseline(s, u);
      if OnePut(Enter(u, c)) {
        EnterFrame(u, c);
      }
    }
  }

  /** Continuations leave the baseline, the server and the GETs alone. */
  lemma ResumeFrame<J>(s: Editor<J>, c: nat)
    requires Inv(s) && Runnable(s, c) && OnePut(Resume(s, c))
    ensures SameBaseline(s, Resume(s, c))
  {
    match s.callers[c].place {
      case Waiting(_) => EnterFrame(s, c);
      case Returned(outcome) => AfterPersistFrame(s, c, outcome);
      case _ =>
    }
  }

  lemma CallFrame<J>(s: Editor<J>, kind: Kind)
    requires OnePut(s) && OnePut(Call(s, kind))
    ensures SameBaseline(s, Call(s, kind))
  {
    var u := s.(busy := s.busy || !kind.Autosave?, callers := s.callers + [Caller(kind, Done)]);
    EnterFrame(u, |s.callers|);
  }

  lemma AnswerTracks<J>(s: Editor<J>, t: Track, ok: bool)
    requires Inv(s) && Tracks(s, t) && Enabled(s, PutAnswers(ok)) && OnePut(Answer(s, ok))
    ensures Tracks(Answer(s, ok), if ok then t.(move := BySave) else t)
  {
  }

  lemma FetchTracks<J>(s: Editor<J>, t: Track)
    requires OnePut(s) && Tracks(s, t) && Enabled(s, Fetches)
    ensures OnePut(Next(s, Fetches)) && Tracks(Next(s, Fetches), t.(seen := t.seen + [t.applied]))
  {
  }

  lemma DeliveryTracks<J>(s: Editor<J>, t: Track, g: nat)
    requires OnePut(s) && Tracks(s, t) && Enabled(s, Delivers(g))
    ensures OnePut(Next(s, Delivers(g))) && Tracks(Next(s, Delivers(g)), t.(move := ByDelivery(g)))
  {
  }

  lemma OtherTracks<J>(s: Editor<J>, t: Track, e: Event<J>)
    requires OnePut(s) && Tracks(s, t) && Enabled(s, e) && (e.Edits? || e.CommitApplies? || e.CommitAnswers?)
    ensures OnePut(Next(s, e)) && Tracks(Next(s, e), t)
  {
  }

  lemma NextTracks<J>(s: Editor<J>, t: Track, e: Event<J>)
    requires Inv(s) && Tracks(s, t) && Enabled(s, e)
    ensures OnePut(Next(s, e)) && Tracks(Next(s, e), Follow(t, e))
  {
    NextKeepsInv(s, e);
    assert OnePut(s) && OnePut(Next(s, e));
    hide Inv, Tracks, OnePut, SameBaseline;
    match e {
      case Continues(c) =>
        ResumeFrame(s, c);
        SameBaselineTracks(s, Resume(s, c), t);
      case Calls(kind) =>
        CallFrame(s, kind);
        SameBaselineTracks(s, Call(s, kind), t);
      case PutAnswers(ok) => AnswerTracks(s, t, ok);
      case PutApplies => AppliesTracks(s, t);
      case Fetches => FetchTracks(s, t);
      case Delivers(g) => DeliveryTracks(s, t, g);
      case _ => OtherTracks(s, t, e);
    }
  }

  lemma AppliesTracks<J>(s: Editor<J>, t: Track)
    requires Inv(s) && Tracks(s, t) && Enabled(s, PutApplies) && OnePut(Next(s, PutApplies))
    ensures Tracks(Next(s, PutApplies), t.(applied := t.applied + 1))
  {
  }

  lemma {:induction false} RunTracks<J>(s: Editor<J>, t: Track, events: seq<Event<J>>)
    requires Inv(s) && Tracks(s, t) && CanRun(s, events)
    ensures Inv(After(s, events)) && Tracks(After(s, events), FollowAll(t, events))
    decreases |events|
  {
    if events != [] {
      NextKeepsInv(s, events[0]);
      NextTracks(s, t, events[0]);
      RunTracks(Next(s, events[0]), Follow(t, events[0]), events[1..]);
    }
  }

  /** No plan is stored twice. */
  ghost predicate AllDistinct<J>(versions: seq<Option<J>>) {
    forall i, j | 0 <= i < j < |versions| :: versions[i] != versions[j]
  }

  /** The server's copy when the answer last adopted was given is, or is again, its copy now. */
  predicate SameCopy<J(==)>(s: Editor<J>, t: Track) {
    t.move.ByDelivery? && t.move.g < |t.seen| && t.seen[t.move.g] < |s.versions| && s.versions[t.seen[t.move.g]] == Server(s)
  }

  /** The baseline is the server's copy exactly when a save or an answer with that copy set it; an
      answer no PUT has overtaken is one, and the only one if no plan is stored twice. */
  ghost predicate BaselineIsExplained<J>(s: Editor<J>, t: Track) {
    && (s.saved == Server(s) <==> t.move.BySave? || SameCopy(s, t))
    && (UpToDate(t) ==> s.saved == Server(s))
    && (AllDistinct(s.versions) ==> (s.saved == Server(s) <==> UpToDate(t)))
  }

  lemma Explained<J>(s: Editor<J>, t: Track)
    requires OnePut(s) && Tracks(s, t) && s.draft.Some? && !s.saving
    ensures BaselineIsExplained(s, t)
  {
    if t.move.ByDelivery? {
      var v := t.seen[t.move.g];
      assert s.versions[v] == s.saved;
      if AllDistinct(s.versions) && v < t.applied {
        assert s.versions[v] != s.versions[t.applied];
      }
    }
  }

  /** The step in which build3d sends the commit. */
  lemma CommitLeavesExplained<J>(s: Editor<J>, t: Track, c: nat)
    requires Inv(s) && Tracks(s, t) && Runnable(s, c) && s.callers[c].place.CommitDue?
    ensures s.draft.Some? && s.draft == s.saved && !s.saving && BaselineIsExplained(Resume(s, c), t)
  {
    assert CallerOk(s, c);
    ResumeKeeps(s, c);
    ResumeFrame(s, c);
    SameBaselineTracks(s, Resume(s, c), t);
    Explained(Resume(s, c), t);
  }

  lemma ResumeCommits<J>(s: Editor<J>, t: Track, c: nat)
    requires Inv(s) && Tracks(s, t) && Runnable(s, c)
    ensures var u := Resume(s, c);
            c < |u.callers| && (u.callers[c].place.Committing? ==>
              !u.saving && u.draft == u.saved == Some(u.callers[c].place.plan) && BaselineIsExplained(u, t))
  {
    if s.callers[c].place.CommitDue? {
      CommitLeavesExplained(s, t, c);
    }
  }

  // ---------------------------------------------------------------------
  // Runs whose answers are current
  // ---------------------------------------------------------------------

  /** Every answer adopted in the run is the server's copy at that moment. */
  ghost predicate FreshRun<J>(s: Editor<J>, events: seq<Event<J>>)
    requires CanRun(s, events)
    decreases |events|
  {
    events != [] ==>
      && (events[0].Delivers? ==> Some(s.gets[events[0].g].copy) == Server(s))
      && FreshRun(Next(s, events[0]), events[1..])
  }

  /** Answers are adopted only while the editor holds no draft. */
  ghost predicate AdoptsOnlyAtFirst<J>(s: Editor<J>, events: seq<Event<J>>)
    requires CanRun(s, events)
    decreases |events|
  {
    events != [] ==>
      && (events[0].Delivers? ==> s.draft.None?)
      && AdoptsOnlyAtFirst(Next(s, events[0]), events[1..])
  }

  /** Without a draft nothing was stored, so every answer has the one copy the server has had. */
  ghost predicate NothingStored<J>(s: Editor<J>) {
    s.draft.None? ==> |s.versions| == 1 && forall g | 0 <= g < |s.gets| :: Some(s.gets[g].copy) == s.versions[0]
  }

  lemma StepStoresNothing<J>(s: Editor<J>, e: Event<J>)
    requires Inv(s) && NothingStored(s) && Enabled(s, e)
    ensures NothingStored(Next(s, e))
  {
    NextKeepsInv(s, e);
    match e {
      case Continues(c) =>
        ResumeKeepsOnePut(s, c);
        ResumeFrame(s, c);
      case _ =>
    }
  }

  /** Such answers are always current. */
  lemma {:induction false} FirstAdoptionsAreFresh<J>(s: Editor<J>, events: seq<Event<J>>)
    requires Inv(s) && NothingStored(s) && CanRun(s, events) && AdoptsOnlyAtFirst(s, events)
    ensures FreshRun(s, events)
    decreases |events|
  {
    if events != [] {
      NextKeepsInv(s, events[0]);
      StepStoresNothing(s, events[0]);
      FirstAdoptionsAreFresh(Next(s, events[0]), events[1..]);
    }
  }

  /** The baseline is the server copy, except while an applied PUT awaits its answer. */
  ghost predicate BaselineIsServer<J>(s: Editor<J>)
    requires OnePut(s)
  {
    s.draft.Some? ==>
      if PutApplied(s) then Server(s) == Some(s.puts[s.promise.value].payload) else s.saved == Server(s)
  }

  lemma StepKeepsBaseline<J>(s: Editor<J>, e: Event<J>)
    requires Inv(s) && BaselineIsServer(s) && Enabled(s, e)
    requires e.Delivers? ==> Some(s.gets[e.g].copy) == Server(s)
    requires PutApplied(s) ==> s.draft.Some?
    ensures OnePut(Next(s, e)) && BaselineIsServer(Next(s, e))
  {
    NextKeepsInv(s, e);
    assert OnePut(s) && OnePut(Next(s, e));
    hide Inv;
    match e {
      case Continues(c) => ResumeFrame(s, c);
      case Calls(kind) => CallFrame(s, kind);
      case _ =>
    }
  }

  lemma {:induction false} FreshRunKeepsBaseline<J>(s: Editor<J>, events: seq<Event<J>>)
    requires Inv(s) && BaselineIsServer(s) && CanRun(s, events) && FreshRun(s, events)
    ensures Inv(After(s, events)) && BaselineIsServer(After(s, events))
    decreases |events|
  {
    if events != [] {
      NextKeepsInv(s, events[0]);
      StepKeepsBaseline(s, events[0]);
      FreshRunKeepsBaseline(Next(s, events[0]), events[1..]);
    }
  }

  // ---------------------------------------------------------------------
  // Theorems
  // ---------------------------------------------------------------------

  /** At most one PUT is in flight, however many callers are waiting. */
  lemma AtMostOnePut<J>(server: Option<J>, events: seq<Event<J>>, i: nat, j: nat)
    requires CanRun(Mounted(server), events)
    requires var s := After(Mounted(server), events);
             i < |s.puts| && j < |s.puts| && Active(s.puts[i].status) && Active(s.puts[j].status)
    ensures i == j
  {
    MountedInv(server);
    RunKeepsInv(Mounted(server), events);
  }

  /** Whenever no PUT is in flight, the baseline is the server copy exactly if it was last moved
      by a successful PUT or by an answer that is not out of date; so it always is when every
      answer is current on adoption. */
  lemma BaselineMatchesServer<J>(server: Option<J>, events: seq<Event<J>>)
    requires CanRun(Mounted(server), events)
    ensures var s := After(Mounted(server), events);
            s.draft.Some? && !s.saving ==>
              && BaselineIsExplained(s, FollowAll(START, events))
              && (FreshRun(Mounted(server), events) ==> s.saved == Server(s))
  {
    var s := After(Mounted(server), events);
    MountedInv(server);
    if FreshRun(Mounted(server), events) {
      FreshRunKeepsBaseline(Mounted(server), events);
    }
    RunTracks(Mounted(server), START, events);
    if s.draft.Some? && !s.saving {
      Explained(s, FollowAll(START, events));
    }
  }

  /** When build3d sends the commit, no PUT is in flight, the draft is the baseline, and so the
      server copy is the local draft exactly if the baseline is not out of date. When every
      answer was current on adoption, the server copy is the local draft. */
  lemma CommitSentForServerCopy<J>(server: Option<J>, events: seq<Event<J>>, c: nat)
    requires CanRun(Mounted(server), events)
    requires var s := After(Mounted(server), events); c < |s.callers| && s.callers[c].place.CommitDue?
    ensures var s := After(Mounted(server), events);
            var t := Resume(s, c);
            && s.draft.Some? && t.callers[c].place == Committing(s.draft.value) && t.draft == t.saved && !t.saving
            && s.callers[c].kind.Build? && s.callers[c].kind.attempt < MAX_PASSES
            && BaselineIsExplained(t, FollowAll(START, events))
            && (FreshRun(Mounted(server), events) ==> Server(t) == t.draft)
  {
    BaselineMatchesServer(server, events);
    MountedInv(server);
    RunKeepsInv(Mounted(server), events);
    assert CallerOk(After(Mounted(server), events), c);
  }

  /** flushPendingSave returning true: no PUT is in flight, and when every answer was current on
      adoption, the server copy is the local draft. */
  lemma FlushMeansSaved<J>(server: Option<J>, events: seq<Event<J>>, c: nat)
    requires CanRun(Mounted(server), events)
    requires var s := After(Mounted(server), events);
             Runnable(s, c) && s.callers[c].place.Returned? && Resume(s, c).callers[c].place.CommitDue?
    ensures var s := After(Mounted(server), events);
            && !s.saving && s.draft.Some? && s.draft == s.saved
            && (FreshRun(Mounted(server), events) ==> Server(s) == s.draft)
  {
    var s := After(Mounted(server), events);
    BaselineMatchesServer(server, events);
    MountedInv(server);
    RunKeepsInv(Mounted(server), events);
    assert CallerOk(s, c);
    FlushSucceeds(s, c);
  }

  /** The runs of an editor that adopts an answer only into an empty editor: there, whatever is
      edited, saved and awaited, every successful flush has put the local draft on the server,
      and every commit builds the plan that was shown when it was sent. */
  lemma FirstAdoptionCommitsWhatIsShown<J>(server: Option<J>, before: seq<Event<J>>, c: nat, during: seq<Event<J>>)
    requires CanRun(Mounted(server), before) && AdoptsOnlyAtFirst(Mounted(server), before)
    requires var s := After(Mounted(server), before);
             && c < |s.callers| && s.callers[c].place.CommitDue?
             && CanRun(Resume(s, c), during) && Enabled(After(Resume(s, c), during), CommitApplies(c))
    ensures var s := After(Mounted(server), before);
            var u := After(Resume(s, c), during);
            && !s.saving && s.draft.Some? && Server(s) == s.draft
            && Next(u, CommitApplies(c)).committed == u.committed + [s.draft.value]
  {
    MountedInv(server);
    FirstAdoptionsAreFresh(Mounted(server), before);
    CommitSentForServerCopy(server, before, c);
    CommitBuildsTheFlushedPlan(server, before, c, during);
    RunKeepsInv(Mounted(server), before);
    assert CallerOk(After(Mounted(server), before), c);
  }

  /** A caller that is done stays done, and while one commits, the server's copy and the plan it
      was shown stay. */
  lemma {:induction false} CommitHoldsServer<J>(s: Editor<J>, events: seq<Event<J>>, c: nat)
    requires Inv(s) && CanRun(s, events) && c < |s.callers|
    requires s.callers[c].place.Committing? || s.callers[c].place.Done?
    ensures var t := After(s, events);
            && c < |t.callers| && (t.callers[c].place == s.callers[c].place || t.callers[c].place.Done?)
            && (t.callers[c].place.Committing? ==> t.versions == s.versions)
    decreases |events|
  {
    if events != [] {
      NextKeepsInv(s, events[0]);
      StepHoldsServer(s, events[0], c);
      CommitHoldsServer(Next(s, events[0]), events[1..], c);
    }
  }

  lemma StepHoldsServer<J>(s: Editor<J>, e: Event<J>, c: nat)
    requires Inv(s) && Enabled(s, e) && c < |s.callers|
    requires s.callers[c].place.Committing? || s.callers[c].place.Done?
    ensures var t := Next(s, e);
            && c < |t.callers| && (t.callers[c].place == s.callers[c].place || t.callers[c].place.Done?)
            && (s.callers[c].place.Committing? ==> t.versions == s.versions)
  {
    assert CallerOk(s, c) && OnePut(s);
    NextKeepsInv(s, e);
    hide Inv, CallerOk;
    match e {
      case Continues(d) =>
        assert d != c;
        assert OnePut(Resume(s, d)) by {
          ResumeKeepsOnePut(s, d);
        }
        ResumeFrame(s, d);
      case _ =>
    }
  }

  lemma ResumeKeepsOnePut<J>(s: Editor<J>, c: nat)
    requires Inv(s) && Runnable(s, c)
    ensures OnePut(Resume(s, c))
  {
    ResumeKeeps(s, c);
  }

  /** However long the commit takes and whatever is edited or delivered meanwhile, the scene is
      built from the copy the server had when the commit was sent. That is the very plan the
      editor then showed exactly if its baseline was not out of date. */
  lemma CommitBuildsTheFlushedPlan<J>(server: Option<J>, before: seq<Event<J>>, c: nat, during: seq<Event<J>>)
    requires CanRun(Mounted(server), before)
    requires var s := After(Mounted(server), before);
             && c < |s.callers| && s.callers[c].place.CommitDue?
             && CanRun(Resume(s, c), during) && Enabled(After(Resume(s, c), during), CommitApplies(c))
    ensures var s := After(Mounted(server), before); s.draft.Some? && Server(s).Some?
    ensures var s := After(Mounted(server), before);
            var u := After(Resume(s, c), during);
            var built := Server(s).value;
            && u.callers[c].place == Committing(s.draft.value)
            && Next(u, CommitApplies(c)).committed == u.committed + [built]
            && BaselineIsExplained(s, FollowAll(START, before))
            && (built == s.draft.value <==> s.saved == Server(s))
            && (FreshRun(Mounted(server), before) ==> built == s.draft.value)
  {
    var s := After(Mounted(server), before);
    CommitSentForServerCopy(server, before, c);
    BaselineMatchesServer(server, before);
    MountedInv(server);
    RunKeepsInv(Mounted(server), before);
    assert CallerOk(s, c);
    ResumeKeeps(s, c);
    CommitHoldsServer(Resume(s, c), during, c);
  }

  // ---------------------------------------------------------------------
  // A late answer
  // ---------------------------------------------------------------------

  /** These events can happen and lead from s to t. */
  ghost predicate Leads<J>(s: Editor<J>, events: seq<Event<J>>, t: Editor<J>) {
    CanRun(s, events) && After(s, events) == t
  }

  lemma {:induction false} LeadsOn<J>(s: Editor<J>, first: seq<Event<J>>, t: Editor<J>, second: seq<Event<J>>, u: Editor<J>)
    requires Leads(s, first, t) && Leads(t, second, u)
    ensures Leads(s, first + second, u)
    decreases |first|
  {
    if first == [] {
      assert first + second == second;
    } else {
      assert (first + second)[1..] == first[1..] + second;
      LeadsOn(Next(s, first[0]), first[1..], t, second, u);
    }
  }

  /** Two answers are given; the first arrives. */
  function Resumed<J>(a: J): Editor<J> {
    Editor(Some(a), Some(a), false, None, false, [], [], [Some(a)], [Get(a, true), Get(a, false)], [])
  }

  /** An edit is autosaved. */
  function Autosaved<J>(a: J, b: J): Editor<J> {
    Editor(Some(b), Some(b), false, None, false, [Put(b, Succeeded)], [Caller(Autosave, Done)],
           [Some(a), Some(b)], [Get(a, true), Get(a, false)], [])
  }

  /** The second answer arrives, and the commit is sent. */
  function Sent<J>(a: J, b: J): Editor<J> {
    Editor(Some(a), Some(a), false, None, true, [Put(b, Succeeded)], [Caller(Autosave, Done), Caller(Build(0), Committing(a))],
           [Some(a), Some(b)], [Get(a, true), Get(a, true)], [])
  }

  ghost predicate Step<J>(s: Editor<J>, e: Event<J>, t: Editor<J>) { Enabled(s, e) && Next(s, e) == t }

  lemma OneMore<J>(s: Editor<J>, events: seq<Event<J>>, k: nat, t: Editor<J>, u: Editor<J>)
    requires k < |events| && Leads(s, events[..k], t) && Step(t, events[k], u)
    ensures Leads(s, events[..k + 1], u)
  {
    hide Enabled, Next;
    var last := [events[k]];
    assert last[1..] == [];
    assert CanRun(u, last[1..]) && After(u, last[1..]) == u;
    assert Leads(t, last, u);
    LeadsOn(s, events[..k], t, last, u);
    assert events[..k + 1] == events[..k] + last;
  }

  lemma ResumeSteps<J>(a: J)
    ensures Leads(Mounted(Some(a)), [Fetches, Fetches, Delivers(0)], Resumed(a))
  {
    var e: seq<Event<J>> := [Fetches, Fetches, Delivers(0)];
    var s := Mounted(Some(a));
    var s1 := s.(gets := [Get(a, false)]);
    var s2 := s.(gets := [Get(a, false), Get(a, false)]);
    assert Step(s, e[0], s1) && Step(s1, e[1], s2) && Step(s2, e[2], Resumed(a));
    assert Leads(s, e[..0], s);
    hide Step, Leads;
    OneMore(s, e, 0, s, s1);
    OneMore(s, e, 1, s1, s2);
    OneMore(s, e, 2, s2, Resumed(a));
    assert e[..3] == e;
  }

  /** The edit's PUT is on its way, and later answered. */
  function Saving<J>(a: J, b: J): Editor<J> {
    Resumed(a).(draft := Some(b), saving := true, promise := Some(0), puts := [Put(b, OnItsWay)], callers := [Caller(Autosave, Own(0))])
  }

  function Replied<J>(a: J, b: J): Editor<J> {
    Autosaved(a, b).(callers := [Caller(Autosave, Own(0))])
  }

  lemma SavingSteps<J>(a: J, b: J)
    requires a != b
    ensures Step(Resumed(a), Edits(b), Resumed(a).(draft := Some(b)))
    ensures Step(Resumed(a).(draft := Some(b)), Calls(Autosave), Saving(a, b))
  {
  }

  lemma AnswerSteps<J>(a: J, b: J)
    ensures var applied := Saving(a, b).(puts := [Put(b, Applied)], versions := [Some(a), Some(b)]);
            Step(Saving(a, b), PutApplies, applied) && Step(applied, PutAnswers(true), Replied(a, b))
    ensures var returned := Autosaved(a, b).(callers := [Caller(Autosave, Returned(Outcome(true)))]);
            Step(Replied(a, b), Continues(0), returned) && Step(returned, Continues(0), Autosaved(a, b))
  {
  }

  lemma AutosaveSteps<J>(a: J, b: J)
    requires a != b
    ensures Leads(Resumed(a), [Edits(b), Calls(Autosave), PutApplies, PutAnswers(true), Continues(0), Continues(0)], Autosaved(a, b))
  {
    var e: seq<Event<J>> := [Edits(b), Calls(Autosave), PutApplies, PutAnswers(true), Continues(0), Continues(0)];
    var s := Resumed(a);
    var edited := s.(draft := Some(b));
    var applied := Saving(a, b).(puts := [Put(b, Applied)], versions := [Some(a), Some(b)]);
    var returned := Autosaved(a, b).(callers := [Caller(Autosave, Returned(Outcome(true)))]);
    SavingSteps(a, b);
    AnswerSteps(a, b);
    assert Leads(s, e[..0], s);
    hide Step, Leads, Resumed, Saving, Autosaved, Replied;
    OneMore(s, e, 0, s, edited);
    OneMore(s, e, 1, edited, Saving(a, b));
    OneMore(s, e, 2, Saving(a, b), applied);
    OneMore(s, e, 3, applied, Replied(a, b));
    OneMore(s, e, 4, Replied(a, b), returned);
    OneMore(s, e, 5, returned, Autosaved(a, b));
    assert e[..6] == e;
  }

  lemma BuildSteps<J>(a: J, b: J)
    ensures var late := Autosaved(a, b).(draft := Some(a), saved := Some(a), gets := [Get(a, true), Get(a, true)]);
            var entered := late.(busy := true, callers := [Caller(Autosave, Done), Caller(Build(0), Returned(Outcome(true)))]);
            var due := late.(busy := true, callers := [Caller(Autosave, Done), Caller(Build(0), CommitDue)]);
            && Step(Autosaved(a, b), Delivers(1), late) && Step(late, Calls(Build(0)), entered)
            && Step(entered, Continues(1), due) && Step(due, Continues(1), Sent(a, b))
  {
  }

  lemma CommitSteps<J>(a: J, b: J)
    ensures Leads(Autosaved(a, b), [Delivers(1), Calls(Build(0)), Continues(1), Continues(1)], Sent(a, b))
  {
    var e: seq<Event<J>> := [Delivers(1), Calls(Build(0)), Continues(1), Continues(1)];
    var s := Autosaved(a, b);
    var late := s.(draft := Some(a), saved := Some(a), gets := [Get(a, true), Get(a, true)]);
    var entered := late.(busy := true, callers := [Caller(Autosave, Done), Caller(Build(0), Returned(Outcome(true)))]);
    var due := late.(busy := true, callers := [Caller(Autosave, Done), Caller(Build(0), CommitDue)]);
    BuildSteps(a, b);
    assert Leads(s, e[..0], s);
    hide Step, Leads, Autosaved, Sent;
    OneMore(s, e, 0, s, late);
    OneMore(s, e, 1, late, entered);
    OneMore(s, e, 2, entered, due);
    OneMore(s, e, 3, due, Sent(a, b));
    assert e[..4] == e;
  }

  /** A run in which an answer overtaken by a PUT undoes the edit on screen and lets the flush
      succeed: the commit is sent for plan a and builds plan b. */
  lemma StaleAnswerCommitsAnotherPlan<J>(a: J, b: J)
    requires a != b
    ensures var events := [Fetches, Fetches, Delivers(0)]
                          + [Edits(b), Calls(Autosave), PutApplies, PutAnswers(true), Continues(0), Continues(0)]
                          + [Delivers(1), Calls(Build(0)), Continues(1), Continues(1)];
            && CanRun(Mounted(Some(a)), events)
            && var s := After(Mounted(Some(a)), events);
            && s.draft == Some(a) && |s.callers| == 2 && s.callers[1].place == Committing(a)
            && Enabled(s, CommitApplies(1)) && Next(s, CommitApplies(1)).committed == [b]
  {
    ResumeSteps(a);
    AutosaveSteps(a, b);
    CommitSteps(a, b);
    assert Enabled(Sent(a, b), CommitApplies(1)) && Next(Sent(a, b), CommitApplies(1)).committed == [b];
    hide Next, Enabled;
    var first: seq<Event<J>> := [Fetches, Fetches, Delivers(0)];
    var second := [Edits(b), Calls(Autosave), PutApplies, PutAnswers(true), Continues(0), Continues(0)];
    var third: seq<Event<J>> := [Delivers(1), Calls(Build(0)), Continues(1), Continues(1)];
    LeadsOn(Mounted(Some(a)), first, Resumed(a), second, Autosaved(a, b));
    LeadsOn(Mounted(Some(a)), first + second, Autosaved(a, b), third, Sent(a, b));
  }
}
