/** Safety and delivery of the notes persister, over every interleaving. */
module NotesLaws {
  import opened Wrappers
  import opened NotesModel

  // ---------------------------------------------------------------------
  // The invariant
  // ---------------------------------------------------------------------

  /** `current` is the last PATCH, and it is the only one in flight. */
  ghost predicate Serial<N>(s: Persister<N>) {
    && |s.sent| == |s.runs|
    && (s.current.Some? ==> s.current.value + 1 == |s.runs| && s.runs[s.current.value].InFlight?)
    && (forall k | 0 <= k < |s.runs| && s.runs[k].InFlight? :: s.current == Some(k))
    && (forall f | 0 <= f < |s.flushers| && (s.flushers[f].OnPatch? || s.flushers[f].OnRun?) :: s.flushers[f].k < |s.runs|)
  }

  ghost predicate IsScheduled<N>(s: Persister<N>, e: Edit<N>) {
    e.at < |s.scheduled| && e.notes == s.scheduled[e.at]
  }

  /** Sent values are scheduled ones, in order, each at most once; what is pending is the newest. */
  ghost predicate Ordered<N>(s: Persister<N>) {
    && (forall i | 0 <= i < |s.sent| :: IsScheduled(s, s.sent[i]))
    && (forall i, j | 0 <= i < j < |s.sent| :: s.sent[i].at < s.sent[j].at)
    && (s.pending.Some? ==>
          && IsScheduled(s, s.pending.value) && s.pending.value.at + 1 == |s.scheduled|
          && (forall i | 0 <= i < |s.sent| :: s.sent[i].at < s.pending.value.at))
  }

  ghost predicate NewestSent<N>(s: Persister<N>) {
    |s.sent| > 0 && s.sent[|s.sent| - 1].at + 1 == |s.scheduled|
  }

  /** The newest edit is pending, or handed to patch, or was dropped by dispose. */
  ghost predicate Accounted<N>(s: Persister<N>) {
    && (s.pending.None? ==> s.scheduled == [] || s.droppedNewest || NewestSent(s))
    && (s.droppedNewest ==> s.pending.None? && !NewestSent(s))
  }

  ghost predicate LastRejected<N>(s: Persister<N>) {
    |s.runs| > 0 && (s.runs[|s.runs| - 1] == Settled(false) || s.runs[|s.runs| - 1] == Finished(false))
  }

  ghost predicate HasFollowUp<N>(s: Persister<N>) {
    exists k :: 0 <= k < |s.runs| && s.runs[k] == Settled(true)
  }

  /** A pending edit has somebody to deliver it, unless the last PATCH was rejected. */
  ghost predicate NotStranded<N>(s: Persister<N>) {
    s.pending.Some? ==> s.timer || s.current.Some? || HasFollowUp(s) || LastRejected(s)
  }

  ghost predicate Inv<N>(s: Persister<N>) {
    Serial(s) && Ordered(s) && Accounted(s) && NotStranded(s)
  }

  lemma FreshInv<N>()
    ensures Inv(Fresh<N>())
  {
  }

  lemma SendKeeps<N>(s: Persister<N>)
    requires Serial(s) && Ordered(s) && Accounted(s) && s.pending.Some? && s.current.None?
    ensures Inv(Send(s))
  {
  }

  /** Every event keeps the invariant. */
  lemma NextKeepsInv<N>(s: Persister<N>, e: Event<N>)
    requires Inv(s) && Enabled(s, e)
    ensures Inv(Next(s, e))
  {
    hide Inv;
    match e {
      case Schedules(next) => ScheduleKeeps(s, next);
      case Fires => FireKeeps(s);
      case Settles(ok) => SettleKeeps(s, ok);
      case RunResumes(k) => ResumeRunKeeps(s, k);
      case Flushes => FlushKeeps(s);
      case FlushResumes(f) => ResumeFlushKeeps(s, f);
      case Disposes => DisposeKeeps(s);
    }
  }

  lemma ScheduleKeeps<N>(s: Persister<N>, next: N)
    requires Inv(s)
    ensures Inv(Schedule(s, next))
  {
    var t := Schedule(s, next);
    forall i | 0 <= i < |t.sent| ensures IsScheduled(t, t.sent[i]) {
      assert IsScheduled(s, s.sent[i]);
    }
  }

  lemma FireKeeps<N>(s: Persister<N>)
    requires Inv(s)
    ensures Inv(Fire(s))
  {
    if s.current.None? && s.pending.Some? {
      SendKeeps(s.(timer := false));
    }
  }

  lemma FlushKeeps<N>(s: Persister<N>)
    requires Inv(s)
    ensures Inv(Flush(s))
  {
    LoopTestKeeps(s.(timer := false, flushers := s.flushers + [Drained]), |s.flushers|);
  }

  lemma ResumeFlushKeeps<N>(s: Persister<N>, f: nat)
    requires Inv(s) && Resumable(s, f)
    ensures Inv(ResumeFlush(s, f))
  {
    if s.runs[s.flushers[f].k].ok {
      LoopTestKeeps(s, f);
    }
  }

  lemma DisposeKeeps<N>(s: Persister<N>)
    requires Inv(s)
    ensures Inv(Dispose(s))
  {
  }

  lemma SettleKeeps<N>(s: Persister<N>, ok: bool)
    requires Inv(s) && s.current.Some?
    ensures Inv(Settle(s, ok))
  {
    var t := Settle(s, ok);
    if ok {
      assert t.runs[s.current.value] == Settled(true);
      assert HasFollowUp(t);
    }
  }

  lemma ResumeRunKeeps<N>(s: Persister<N>, k: nat)
    requires Inv(s) && k < |s.runs| && s.runs[k].Settled?
    ensures Inv(ResumeRun(s, k))
  {
    var after := s.(runs := s.runs[k := Finished(s.runs[k].ok)]);
    if s.runs[k].ok && s.pending.Some? {
      if s.current.None? {
        SendKeeps(after);
      }
    } else if HasFollowUp(s) {
      var j :| 0 <= j < |s.runs| && s.runs[j] == Settled(true);
      assert j != k ==> after.runs[j] == Settled(true);
    }
  }

  lemma LoopTestKeeps<N>(s: Persister<N>, f: nat)
    requires Serial(s) && Ordered(s) && Accounted(s) && f < |s.flushers|
    ensures Inv(LoopTest(s, f))
  {
    if s.current.None? && s.pending.Some? {
      SendKeeps(s);
    }
  }

  lemma {:induction false} RunKeepsInv<N>(s: Persister<N>, events: seq<Event<N>>)
    requires Inv(s) && CanRun(s, events)
    ensures Inv(After(s, events))
    decreases |events|
  {
    if events != [] {
      NextKeepsInv(s, events[0]);
      RunKeepsInv(Next(s, events[0]), events[1..]);
    }
  }

  // ---------------------------------------------------------------------
  // Safety
  // ---------------------------------------------------------------------

  /** In every reachable state at most one PATCH is in flight. */
  lemma AtMostOnePatch<N>(events: seq<Event<N>>, i: nat, j: nat)
    requires CanRun(Fresh<N>(), events)
    requires var s := After(Fresh<N>(), events); i < |s.runs| && j < |s.runs| && s.runs[i].InFlight? && s.runs[j].InFlight?
    ensures i == j
  {
    FreshInv<N>();
    RunKeepsInv(Fresh(), events);
  }

  /** Which schedule() call each PATCH carries. */
  function Places<N>(s: Persister<N>): (place: seq<nat>)
    ensures |place| == |s.sent| && forall i | 0 <= i < |place| :: place[i] == s.sent[i].at
  {
    seq(|s.sent|, i requires 0 <= i < |s.sent| => s.sent[i].at)
  }

  /** The values handed to patch are a subsequence of the scheduled ones: last write wins. */
  lemma SentIsSubsequence<N>(events: seq<Event<N>>)
    requires CanRun(Fresh<N>(), events)
    ensures IsEmbedding(Places(After(Fresh<N>(), events)), After(Fresh<N>(), events))
  {
    FreshInv<N>();
    RunKeepsInv(Fresh(), events);
    var s := After(Fresh<N>(), events);
    var place := Places(s);
    forall i | 0 <= i < |place| ensures place[i] < |s.scheduled| && s.sent[i].notes == s.scheduled[place[i]] {
      assert IsScheduled(s, s.sent[i]);
    }
  }

  /** `place` names, in strictly increasing order, the schedule() call behind each PATCH. */
  ghost predicate IsEmbedding<N>(place: seq<nat>, s: Persister<N>) {
    && |place| == |s.sent|
    && (forall i | 0 <= i < |place| :: place[i] < |s.scheduled| && s.sent[i].notes == s.scheduled[place[i]])
    && (forall i, j | 0 <= i < j < |place| :: place[i] < place[j])
  }

  /** A pending edit is never stranded, except by a rejection. */
  lemma NeverStranded<N>(events: seq<Event<N>>)
    requires CanRun(Fresh<N>(), events)
    ensures NotStranded(After(Fresh<N>(), events))
  {
    FreshInv<N>();
    RunKeepsInv(Fresh(), events);
  }

  /** When a flush returns, nothing is pending or in flight, and the newest edit was handed to
      patch unless a dispose dropped it. */
  lemma FlushDrains<N>(s: Persister<N>, e: Event<N>, f: nat)
    requires Inv(s) && Enabled(s, e) && f < |Next(s, e).flushers|
    requires e == FlushResumes(f) || (e == Flushes && f == |s.flushers|)
    requires Next(s, e).flushers[f].Drained?
    ensures var t := Next(s, e);
            t.pending.None? && t.current.None? && (t.scheduled == [] || t.droppedNewest || NewestSent(t))
  {
    NextKeepsInv(s, e);
  }

  // ---------------------------------------------------------------------
  // Delivery
  // ---------------------------------------------------------------------

  /** The events that need no caller: the timer, a successful settlement, continuations. */
  predicate Internal<N>(e: Event<N>) {
    e.Fires? || e == Settles(true) || e.RunResumes? || e.FlushResumes?
  }

  ghost predicate AllInternal<N>(events: seq<Event<N>>) {
    forall i | 0 <= i < |events| :: Internal(events[i])
  }

  /** Nothing is left to happen. */
  ghost predicate AtRest<N>(s: Persister<N>) {
    && !s.timer && s.current.None?
    && (forall k | 0 <= k < |s.runs| :: s.runs[k].Finished?)
    && (forall f | 0 <= f < |s.flushers| :: s.flushers[f].Drained? || s.flushers[f].Failed?)
  }

  /** Until everything is at rest some internal event can happen. */
  lemma Progress<N>(s: Persister<N>)
    requires Inv(s)
    ensures AtRest(s) <==> forall e: Event<N> | Internal(e) :: !Enabled(s, e)
  {
    if AtRest(s) {
      forall e: Event<N> | Internal(e) ensures !Enabled(s, e) {
      }
    } else {
      if s.timer {
        assert Enabled(s, Fires);
      } else if s.current.Some? {
        assert Enabled(s, Settles(true));
      } else if exists k :: 0 <= k < |s.runs| && !s.runs[k].Finished? {
        var k :| 0 <= k < |s.runs| && !s.runs[k].Finished?;
        assert Enabled(s, RunResumes(k));
      } else {
        var f :| 0 <= f < |s.flushers| && !s.flushers[f].Drained? && !s.flushers[f].Failed?;
        assert Enabled(s, FlushResumes(f));
      }
    }
  }

  function PhaseWeight(p: Phase): nat {
    if p.InFlight? then 2 else if p.Settled? then 1 else 0
  }

  function RunsWeight(runs: seq<Phase>): nat {
    if runs == [] then 0 else RunsWeight(runs[..|runs| - 1]) + PhaseWeight(runs[|runs| - 1])
  }

  /** How many PATCHes a flusher could still have to wait for. */
  function FlusherWeight(w: Flusher, horizon: nat): nat {
    if (w.OnPatch? || w.OnRun?) && w.k < horizon then horizon - w.k else 0
  }

  function FlushersWeight(flushers: seq<Flusher>, horizon: nat): nat {
    if flushers == [] then 0
    else FlushersWeight(flushers[..|flushers| - 1], horizon) + FlusherWeight(flushers[|flushers| - 1], horizon)
  }

  function Horizon<N>(s: Persister<N>): nat {
    |s.runs| + if s.pending.Some? then 1 else 0
  }

  /** An upper bound on the number of internal events still to come. */
  function Work<N>(s: Persister<N>): nat {
    (if s.timer then 1 else 0) + (if s.pending.Some? then 3 else 0) + RunsWeight(s.runs) + FlushersWeight(s.flushers, Horizon(s))
  }

  lemma {:induction false} RunsWeightUpdated(runs: seq<Phase>, k: nat, p: Phase)
    requires k < |runs|
    ensures RunsWeight(runs[k := p]) + PhaseWeight(runs[k]) == RunsWeight(runs) + PhaseWeight(p)
  {
    var n := |runs| - 1;
    if k == n {
      assert runs[k := p][..n] == runs[..n];
    } else {
      assert runs[k := p][..n] == runs[..n][k := p];
      RunsWeightUpdated(runs[..n], k, p);
    }
  }

  lemma {:induction false} FlushersWeightUpdated(flushers: seq<Flusher>, f: nat, w: Flusher, horizon: nat)
    requires f < |flushers|
    ensures FlushersWeight(flushers[f := w], horizon) + FlusherWeight(flushers[f], horizon)
         == FlushersWeight(flushers, horizon) + FlusherWeight(w, horizon)
  {
    var n := |flushers| - 1;
    if f == n {
      assert flushers[f := w][..n] == flushers[..n];
    } else {
      assert flushers[f := w][..n] == flushers[..n][f := w];
      FlushersWeightUpdated(flushers[..n], f, w, horizon);
    }
  }

  lemma SendWork<N>(s: Persister<N>)
    requires s.pending.Some?
    ensures Work(Send(s)) + 1 == Work(s) && Horizon(Send(s)) == Horizon(s)
  {
    assert (s.runs + [InFlight])[..|s.runs|] == s.runs;
  }

  /** Every internal event uses up work. */
  lemma InternalUsesWork<N>(s: Persister<N>, e: Event<N>)
    requires Inv(s) && Enabled(s, e) && Internal(e)
    ensures Work(Next(s, e)) < Work(s)
  {
    match e {
      case Fires =>
        FireUsesWork(s);
      case Settles(ok) =>
        RunsWeightUpdated(s.runs, s.current.value, Settled(ok));
      case RunResumes(k) =>
        ResumeRunUsesWork(s, k);
      case FlushResumes(f) =>
        ResumeFlushUsesWork(s, f);
    }
  }

  lemma FireUsesWork<N>(s: Persister<N>)
    requires s.timer
    ensures Work(Fire(s)) < Work(s)
  {
    if s.current.None? && s.pending.Some? {
      SendWork(s.(timer := false));
    }
  }

  lemma ResumeRunUsesWork<N>(s: Persister<N>, k: nat)
    requires k < |s.runs| && s.runs[k].Settled?
    ensures Work(ResumeRun(s, k)) < Work(s)
  {
    var after := s.(runs := s.runs[k := Finished(s.runs[k].ok)]);
    RunsWeightUpdated(s.runs, k, Finished(s.runs[k].ok));
    if s.pending.Some? {
      SendWork(after);
    }
  }

  lemma ResumeFlushUsesWork<N>(s: Persister<N>, f: nat)
    requires Inv(s) && Resumable(s, f)
    ensures Work(ResumeFlush(s, f)) < Work(s)
  {
    var k := s.flushers[f].k;
    var t := ResumeFlush(s, f);
    FlushersWeightUpdated(s.flushers, f, t.flushers[f], Horizon(s));
    if s.runs[k].ok && s.current.None? && s.pending.Some? {
      SendWork(s);
      assert t.flushers[f] == OnRun(|s.runs|);
    }
  }

  /** What delivery needs: no dispose dropped the newest edit, and no rejection left it pending
      without a timer. */
  ghost predicate Promised<N>(s: Persister<N>) {
    s.scheduled != [] && !s.droppedNewest && (LastRejected(s) && s.pending.Some? ==> s.timer)
  }

  /** Internal events keep it. */
  lemma InternalKeepsPromise<N>(s: Persister<N>, e: Event<N>)
    requires Inv(s) && Enabled(s, e) && Internal(e) && Promised(s)
    ensures Promised(Next(s, e)) && Next(s, e).scheduled == s.scheduled
  {
  }

  /** Everything left to happen is finite, and once at rest the newest edit has been handed to patch. */
  ghost predicate WillDeliver<N>(s: Persister<N>, events: seq<Event<N>>)
    requires CanRun(s, events)
  {
    && |events| <= Work(s)
    && (AtRest(After(s, events)) ==>
          var t := After(s, events);
          t.pending.None? && t.scheduled == s.scheduled && NewestSent(t) && t.sent[|t.sent| - 1].notes == s.scheduled[|s.scheduled| - 1])
  }

  /** Delivery: with no further calls and no rejection, every way of running what is left is
      finite, and once at rest the newest edit has been handed to patch. */
  lemma {:induction false} NewestIsDelivered<N>(s: Persister<N>, events: seq<Event<N>>)
    requires Inv(s) && CanRun(s, events) && AllInternal(events) && Promised(s)
    ensures WillDeliver(s, events)
    decreases |events|
  {
    if events == [] {
      if AtRest(s) {
        assert !HasFollowUp(s);
        assert IsScheduled(s, s.sent[|s.sent| - 1]);
      }
    } else {
      var next := Next(s, events[0]);
      NextKeepsInv(s, events[0]);
      InternalUsesWork(s, events[0]);
      InternalKeepsPromise(s, events[0]);
      NewestIsDelivered(next, events[1..]);
    }
  }

  lemma OneEvent<N>(s: Persister<N>, events: seq<Event<N>>)
    requires |events| == 1 && Enabled(s, events[0])
    ensures CanRun(s, events) && After(s, events) == Next(s, events[0])
  {
    assert events[1..] == [];
  }

  lemma FirstEvent<N>(s: Persister<N>, e: Event<N>, rest: seq<Event<N>>)
    requires Enabled(s, e) && CanRun(Next(s, e), rest)
    ensures CanRun(s, [e] + rest) && After(s, [e] + rest) == After(Next(s, e), rest)
  {
    assert ([e] + rest)[1..] == rest;
  }

  /** A rejection costs nothing newer than itself: an edit made during the PATCH, whose timer is
      armed, is still delivered in every order of the remaining steps. */
  lemma RejectionSparesLaterEdits<N>(s: Persister<N>, events: seq<Event<N>>)
    requires Inv(s) && s.current.Some? && s.scheduled != [] && !s.droppedNewest
    requires s.pending.Some? ==> s.timer
    requires CanRun(Settle(s, false), events) && AllInternal(events)
    ensures WillDeliver(Settle(s, false), events)
  {
    SettleKeeps(s, false);
    NewestIsDelivered(Settle(s, false), events);
  }

  /** And after any rejection the next edit is delivered. */
  lemma NextEditIsDelivered<N>(s: Persister<N>, next: N, events: seq<Event<N>>)
    requires Inv(s) && CanRun(Schedule(s, next), events) && AllInternal(events)
    ensures WillDeliver(Schedule(s, next), events)
    ensures Schedule(s, next).scheduled == s.scheduled + [next]
  {
    ScheduleKeeps(s, next);
    NewestIsDelivered(Schedule(s, next), events);
  }

  // ---------------------------------------------------------------------
  // dispose
  // ---------------------------------------------------------------------

  /** Who starts and stops the debounce timer. */
  lemma TimerIsHandled<N>(s: Persister<N>, next: N)
    ensures Schedule(s, next).timer && !Flush(s).timer && !Dispose(s).timer && !Fire(s).timer
    ensures s.current.Some? && s.current.value < |s.runs| ==> forall ok :: Settle(s, ok).timer == s.timer
    ensures forall k: nat | k < |s.runs| && s.runs[k].Settled? :: ResumeRun(s, k).timer == s.timer
    ensures forall f | Resumable(s, f) :: ResumeFlush(s, f).timer == s.timer
  {
  }

  /** A flush that sent the PATCH itself goes on only after its run has, one that found it in flight
      as soon as it has settled. */
  lemma FlushWaitsFor<N>(s: Persister<N>, f: nat)
    requires f < |s.flushers| && Resumable(s, f)
    ensures s.flushers[f].OnRun? ==> s.flushers[f].k < |s.runs| && s.runs[s.flushers[f].k].Finished?
    ensures s.flushers[f].OnPatch? ==> s.flushers[f].k < |s.runs| && !s.runs[s.flushers[f].k].InFlight?
  {
  }

  /** A dispose while a PATCH is in flight costs nothing: when that PATCH succeeds, every order of
      the remaining steps delivers the newest edit, queued or not. */
  lemma DisposeInFlightDelivers<N>(s: Persister<N>, events: seq<Event<N>>)
    requires Inv(s) && s.current.Some? && s.scheduled != [] && !s.droppedNewest
    requires CanRun(Dispose(s), events) && AllInternal(events)
    ensures WillDeliver(Dispose(s), events)
  {
    DisposeKeeps(s);
    NewestIsDelivered(Dispose(s), events);
  }

  /** The page's unmount, flush() followed at once by dispose(), delivers the newest edit from every
      state, whatever had been rejected before. */
  lemma UnmountDelivers<N>(s: Persister<N>, events: seq<Event<N>>)
    requires Inv(s) && s.scheduled != [] && !s.droppedNewest
    requires CanRun(Dispose(Flush(s)), events) && AllInternal(events)
    ensures WillDeliver(Dispose(Flush(s)), events)
  {
    FlushKeeps(s);
    DisposeKeeps(Flush(s));
    NewestIsDelivered(Dispose(Flush(s)), events);
  }

  /** Edit number `at` is neither sent nor pending. */
  ghost predicate IsGone<N>(s: Persister<N>, at: nat) {
    && at < |s.scheduled| && (s.pending.Some? ==> s.pending.value.at != at)
    && (forall i | 0 <= i < |s.sent| :: s.sent[i].at != at)
  }

  /** Once gone, an edit stays gone, whatever is called and happens. */
  lemma {:induction false} GoneForGood<N>(s: Persister<N>, events: seq<Event<N>>, at: nat)
    requires Inv(s) && CanRun(s, events) && IsGone(s, at)
    ensures IsGone(After(s, events), at)
    decreases |events|
  {
    if events != [] {
      NextKeepsInv(s, events[0]);
      StepKeepsGone(s, events[0], at);
      GoneForGood(Next(s, events[0]), events[1..], at);
    }
  }

  lemma StepKeepsGone<N>(s: Persister<N>, e: Event<N>, at: nat)
    requires Inv(s) && Enabled(s, e) && IsGone(s, at)
    ensures IsGone(Next(s, e), at)
  {
    match e {
      case Schedules(_) =>
      case Fires =>
      case Settles(_) =>
      case RunResumes(_) =>
      case Flushes =>
      case FlushResumes(_) =>
      case Disposes =>
    }
  }

  /** These events hand that edit to patch. */
  ghost predicate Sends<N>(s: Persister<N>, events: seq<Event<N>>, edit: Edit<N>) {
    CanRun(s, events) && edit in After(s, events).sent
  }

  /** After dispose the pending edit can still reach patch exactly when a PATCH was in flight;
      otherwise it never will, whatever is called and happens. */
  lemma DisposeDropsIff<N>(s: Persister<N>)
    requires Inv(s) && s.pending.Some?
    ensures (exists events :: Sends(Dispose(s), events, s.pending.value)) <==> s.current.Some?
  {
    var edit, t := s.pending.value, Dispose(s);
    DisposeKeeps(s);
    if s.current.Some? {
      var k := s.current.value;
      var a := Settle(t, true);
      var events := [RunResumes(k)];
      OneEvent(a, events);
      FirstEvent(t, Settles(true), events);
      assert After(t, [Settles(true)] + events).sent == s.sent + [edit];
      assert Sends(t, [Settles(true)] + events, edit);
    } else {
      forall events | CanRun(t, events) ensures edit !in After(t, events).sent {
        GoneForGood(t, events, edit.at);
      }
    }
  }

  /** The continuations that are due or become due without a timer or an answer. */
  ghost predicate AllContinuations<N>(events: seq<Event<N>>) {
    forall i | 0 <= i < |events| :: events[i].RunResumes? || events[i].FlushResumes?
  }

  /** A flush whose awaited PATCH succeeded is about to look again. */
  ghost predicate HasDrain<N>(s: Persister<N>) {
    exists f :: Drains(s, f)
  }

  ghost predicate Drains<N>(s: Persister<N>, f: nat) {
    Resumable(s, f) && s.runs[s.flushers[f].k].ok
  }

  /** No PATCH, no timer, and nobody who would send what is pending. */
  ghost predicate Quiet<N>(s: Persister<N>) {
    s.current.None? && !s.timer && !HasFollowUp(s) && !HasDrain(s)
  }

  lemma {:induction false} QuietSendsNothing<N>(s: Persister<N>, events: seq<Event<N>>)
    requires Quiet(s) && CanRun(s, events) && AllContinuations(events)
    ensures After(s, events).sent == s.sent
    decreases |events|
  {
    if events != [] {
      QuietStep(s, events[0]);
      QuietSendsNothing(Next(s, events[0]), events[1..]);
    }
  }

  lemma QuietStep<N>(s: Persister<N>, e: Event<N>)
    requires Quiet(s) && Enabled(s, e) && (e.RunResumes? || e.FlushResumes?)
    ensures Quiet(Next(s, e)) && Next(s, e).sent == s.sent
  {
    var t := Next(s, e);
    if e.RunResumes? {
      assert s.runs[e.k] != Settled(true);
    } else {
      assert !Drains(s, e.f);
    }
    forall k | 0 <= k < |t.runs| ensures t.runs[k] != Settled(true) {
      assert s.runs[k] != Settled(true);
    }
    forall f: nat ensures !Drains(t, f) {
      assert !Drains(s, f);
    }
  }

  /** Where the comment of dispose - with no PATCH in flight nothing would ever trigger the pending
      edit - is wrong: exactly when a run of continuations alone, without the timer that dispose is
      there to stop, would have sent it; and that is when a successful run has yet to continue or
      a flush has yet to look again after one. */
  lemma DisposeCutsOffIff<N>(s: Persister<N>)
    requires Inv(s) && s.pending.Some? && s.current.None?
    ensures (exists events :: AllContinuations(events) && Sends(s.(timer := false), events, s.pending.value))
            <==> HasFollowUp(s) || HasDrain(s)
  {
    var edit, t := s.pending.value, s.(timer := false);
    if HasFollowUp(s) {
      var k: nat :| k < |s.runs| && s.runs[k] == Settled(true);
      var events := [RunResumes(k)];
      OneEvent(t, events);
      assert After(t, events).sent == s.sent + [edit];
      assert Sends(t, events, edit);
    } else if HasDrain(s) {
      var f: nat :| Drains(s, f);
      var events := [FlushResumes(f)];
      assert Drains(t, f);
      OneEvent(t, events);
      assert After(t, events).sent == s.sent + [edit];
      assert Sends(t, events, edit);
    } else {
      CutOffNothing(s);
    }
  }

  lemma CutOffNothing<N>(s: Persister<N>)
    requires Inv(s) && s.pending.Some? && s.current.None? && !HasFollowUp(s) && !HasDrain(s)
    ensures forall events | AllContinuations(events) :: !Sends(s.(timer := false), events, s.pending.value)
  {
    var edit, t := s.pending.value, s.(timer := false);
    forall f: nat ensures !Drains(t, f) {
      assert !Drains(s, f);
    }
    assert edit !in s.sent;
    forall events | AllContinuations(events) && CanRun(t, events) ensures edit !in After(t, events).sent {
      QuietSendsNothing(t, events);
    }
  }

  /** The six steps, one state at a time. */
  lemma GapSteps<N>(first: N, second: N)
    ensures var s1 := Next(Fresh<N>(), Schedules(first));
            var s2 := Next(s1, Fires);
            var s3 := Next(s2, Schedules(second));
            var s4 := Next(s3, Settles(true));
            var s5 := Next(s4, Disposes);
            var s6 := Next(s5, RunResumes(0));
            && Enabled(Fresh<N>(), Schedules(first)) && Enabled(s1, Fires) && Enabled(s2, Schedules(second))
            && Enabled(s3, Settles(true)) && Enabled(s4, Disposes) && Enabled(s5, RunResumes(0))
            && AtRest(s6) && s6.sent == [Edit(0, first)] && s6.scheduled == [first, second] && !LastRejected(s6)
  {
  }

  /** A dispose after that PATCH succeeded but before run() continues drops the queued edit,
      although the continuation was about to send it. */
  lemma DisposeInGapDrops<N>(first: N, second: N)
    ensures var events := [Schedules(first), Fires, Schedules(second), Settles(true), Disposes, RunResumes(0)];
            && CanRun(Fresh<N>(), events)
            && AtRest(After(Fresh<N>(), events))
            && After(Fresh<N>(), events).sent == [Edit(0, first)]
            && After(Fresh<N>(), events).scheduled == [first, second]
            && !LastRejected(After(Fresh<N>(), events))
  {
    hide CanRun, After, Next, Enabled, AtRest, LastRejected;
    GapSteps(first, second);
    var s0 := Fresh<N>();
    var s1 := Next(s0, Schedules(first));
    var s2 := Next(s1, Fires);
    var s3 := Next(s2, Schedules(second));
    var s4 := Next(s3, Settles(true));
    var s5 := Next(s4, Disposes);
    var e5: seq<Event<N>> := [RunResumes(0)];
    var e4: seq<Event<N>> := [Disposes, RunResumes(0)];
    var e3: seq<Event<N>> := [Settles(true), Disposes, RunResumes(0)];
    var e2 := [Schedules(second), Settles(true), Disposes, RunResumes(0)];
    var e1 := [Fires, Schedules(second), Settles(true), Disposes, RunResumes(0)];
    GapEvents(first, second);
    OneEvent(s5, e5);
    FirstEvent(s4, Disposes, e5);
    FirstEvent(s3, Settles(true), e4);
    FirstEvent(s2, Schedules(second), e3);
    FirstEvent(s1, Fires, e2);
    FirstEvent(s0, Schedules(first), e1);
  }

  lemma GapEvents<N>(first: N, second: N)
    ensures var e5: seq<Event<N>> := [RunResumes(0)];
            var e4: seq<Event<N>> := [Disposes, RunResumes(0)];
            var e3: seq<Event<N>> := [Settles(true), Disposes, RunResumes(0)];
            var e2 := [Schedules(second), Settles(true), Disposes, RunResumes(0)];
            var e1 := [Fires, Schedules(second), Settles(true), Disposes, RunResumes(0)];
            && e4 == [Disposes] + e5 && e3 == [Settles(true)] + e4 && e2 == [Schedules(second)] + e3 && e1 == [Fires] + e2
            && [Schedules(first), Fires, Schedules(second), Settles(true), Disposes, RunResumes(0)] == [Schedules(first)] + e1
  {
  }
}
