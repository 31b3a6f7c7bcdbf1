/** The save protocol of the plan editor comes to an end, and a build that ends without a
    commit has a reason. */
module PlanSaveProgress {
  import opened Wrappers
  import opened PlanSaveModel
  import opened PlanSaveLaws

  // ---------------------------------------------------------------------
  // Something can always happen
  // ---------------------------------------------------------------------

  /** The events that need no user: continuations, and the server's answers, good or bad. */
  predicate Internal<J>(e: Event<J>) {
    e.Continues? || e.PutApplies? || e.PutAnswers? || e.CommitAnswers?
  }

  ghost predicate AllInternal<J>(events: seq<Event<J>>) {
    forall i | 0 <= i < |events| :: Internal(events[i])
  }

  /** Every call has returned and no PUT is in flight. */
  ghost predicate AtRest<J>(s: Editor<J>) {
    s.promise.None? && forall c | 0 <= c < |s.callers| :: s.callers[c].place.Done?
  }

  /** Until everything is at rest some internal event can happen: nobody waits for nothing. */
  lemma Progress<J>(s: Editor<J>)
    requires Inv(s)
    ensures AtRest(s) <==> forall e: Event<J> | Internal(e) :: !Enabled(s, e)
  {
    if !AtRest(s) {
      SomethingIsEnabled(s);
    }
  }

  lemma SomethingIsEnabled<J>(s: Editor<J>)
    requires Inv(s) && !AtRest(s)
    ensures exists e: Event<J> :: Internal(e) && Enabled(s, e)
  {
    if !Idle(s) {
      var c :| 0 <= c < |s.callers| && Runnable(s, c);
      assert Enabled(s, Continues(c));
    } else if s.promise.Some? {
      assert Enabled(s, PutAnswers(!s.puts[s.promise.value].status.OnItsWay?));
    } else {
      var c :| 0 <= c < |s.callers| && !s.callers[c].place.Done?;
      assert CallerOk(s, c) && !Runnable(s, c);
      assert Enabled(s, CommitAnswers(c));
    }
  }

  // ---------------------------------------------------------------------
  // It does not go on for ever
  // ---------------------------------------------------------------------

  /** The PUT in flight is the last one sent. */
  predicate LastPut<J>(s: Editor<J>) { s.promise.Some? ==> s.promise.value + 1 == |s.puts| }

  lemma NextKeepsLastPut<J>(s: Editor<J>, e: Event<J>)
    requires Inv(s) && LastPut(s) && Enabled(s, e)
    ensures LastPut(Next(s, e))
  {
  }

  /** The passes of flushPendingSave still to come after the present one. */
  function Passes(kind: Kind): nat {
    match kind
    case Build(attempt) => if attempt < MAX_PASSES then MAX_PASSES - 1 - attempt else 0
    case _ => 0
  }

  /** The PUTs the caller may yet send. */
  function Sends<J>(caller: Caller<J>): nat {
    match caller.place
    case Waiting(_) => 1 + Passes(caller.kind)
    case Own(_) => Passes(caller.kind)
    case Returned(_) => Passes(caller.kind)
    case _ => 0
  }

  function AllSends<J>(callers: seq<Caller<J>>): nat {
    if callers == [] then 0 else AllSends(callers[..|callers| - 1]) + Sends(callers[|callers| - 1])
  }

  /** A bound on the number of PUTs there will ever be. */
  function Horizon<J>(s: Editor<J>): nat { |s.puts| + AllSends(s.callers) }

  /** What n further passes may cost. */
  function PassCost(n: nat, horizon: nat): nat { if n == 0 then 0 else PassCost(n - 1, horizon) + 3 * horizon + 6 }

  function PlaceCost<J>(place: Place<J>, horizon: nat): nat {
    match place
    case Waiting(k) => 5 + if k < horizon then 3 * (horizon - k) else 0
    case Own(_) => 4
    case Returned(_) => 3
    case CommitDue => 2
    case Committing(_) => 1
    case Done => 0
  }

  function CallerCost<J>(caller: Caller<J>, horizon: nat): nat {
    PlaceCost(caller.place, horizon)
    + if caller.place.Waiting? || caller.place.Own? || caller.place.Returned? then PassCost(Passes(caller.kind), horizon) else 0
  }

  function CallersCost<J>(callers: seq<Caller<J>>, horizon: nat): nat {
    if callers == [] then 0
    else CallersCost(callers[..|callers| - 1], horizon) + CallerCost(callers[|callers| - 1], horizon)
  }

  function PutCost<J>(s: Editor<J>): nat {
    if s.promise.Some? && s.promise.value < |s.puts| then
      (if s.puts[s.promise.value].status.OnItsWay? then 2 else 1)
    else 0
  }

  /** An upper bound on the number of internal events still to come. */
  function Work<J>(s: Editor<J>): nat { CallersCost(s.callers, Horizon(s)) + PutCost(s) }

  lemma {:induction false} SendsUpdated<J>(callers: seq<Caller<J>>, c: nat, caller: Caller<J>)
    requires c < |callers|
    ensures AllSends(callers[c := caller]) + Sends(callers[c]) == AllSends(callers) + Sends(caller)
  {
    var n := |callers| - 1;
    if c == n {
      assert callers[c := caller][..n] == callers[..n];
    } else {
      assert callers[c := caller][..n] == callers[..n][c := caller];
      SendsUpdated(callers[..n], c, caller);
    }
  }

  lemma {:induction false} CostUpdated<J>(callers: seq<Caller<J>>, c: nat, caller: Caller<J>, horizon: nat)
    requires c < |callers|
    ensures CallersCost(callers[c := caller], horizon) + CallerCost(callers[c], horizon)
         == CallersCost(callers, horizon) + CallerCost(caller, horizon)
  {
    hide CallerCost;
    var n := |callers| - 1;
    if c == n {
      assert callers[c := caller][..n] == callers[..n];
    } else {
      assert callers[c := caller][..n] == callers[..n][c := caller];
      CostUpdated(callers[..n], c, caller, horizon);
    }
  }

  lemma {:induction false} PassCostGrows(n: nat, low: nat, high: nat)
    requires low <= high
    ensures PassCost(n, low) <= PassCost(n, high)
  {
    if n > 0 {
      PassCostGrows(n - 1, low, high);
    }
  }

  lemma {:induction false} CostGrows<J>(callers: seq<Caller<J>>, low: nat, high: nat)
    requires low <= high
    ensures CallersCost(callers, low) <= CallersCost(callers, high)
  {
    if callers != [] {
      var last := callers[|callers| - 1];
      CostGrows(callers[..|callers| - 1], low, high);
      PassCostGrows(Passes(last.kind), low, high);
    }
  }

  /** One caller moves on: if the horizon does not rise and the move is worth more than the PUT it
      sends, work is used up. */
  lemma MoveUsesWork<J>(s: Editor<J>, t: Editor<J>, c: nat, caller: Caller<J>)
    requires c < |s.callers| && t.callers == s.callers[c := caller]
    requires |t.puts| + Sends(caller) <= |s.puts| + Sends(s.callers[c])
    requires CallerCost(caller, Horizon(s)) + PutCost(t) < CallerCost(s.callers[c], Horizon(s)) + PutCost(s)
    ensures Work(t) < Work(s)
  {
    hide CallerCost, Sends, PutCost;
    SendsUpdated(s.callers, c, caller);
    CostUpdated(s.callers, c, caller, Horizon(s));
    CostGrows(t.callers, Horizon(t), Horizon(s));
  }

  /** A PUT that was sent lies below the horizon. */
  lemma SentBelowHorizon<J>(s: Editor<J>, k: nat)
    requires k < |s.puts|
    ensures k < Horizon(s)
  {
  }

  /** Every internal event uses up work. */
  lemma InternalUsesWork<J>(s: Editor<J>, e: Event<J>)
    requires Inv(s) && LastPut(s) && Enabled(s, e) && Internal(e)
    ensures Work(Next(s, e)) < Work(s)
  {
    match e {
      case Continues(c) =>
        ResumeUsesWork(s, c);
      case PutApplies =>
      case PutAnswers(ok) =>
      case CommitAnswers(c) =>
        MoveUsesWork(s, Finish(s, c), c, s.callers[c].(place := Done));
    }
  }

  lemma ResumeUsesWork<J>(s: Editor<J>, c: nat)
    requires Inv(s) && LastPut(s) && Runnable(s, c)
    ensures Work(Resume(s, c)) < Work(s)
  {
    assert CallerOk(s, c);
    match s.callers[c].place {
      case Waiting(_) =>
        WaiterUsesWork(s, c);
      case Own(k) =>
        var t := Resume(s, c);
        MoveUsesWork(s, t, c, t.callers[c]);
      case Returned(outcome) =>
        ReturnUsesWork(s, c, outcome);
      case CommitDue =>
        var t := Resume(s, c);
        MoveUsesWork(s, t, c, t.callers[c]);
    }
  }

  lemma WaiterUsesWork<J>(s: Editor<J>, c: nat)
    requires Inv(s) && LastPut(s) && Runnable(s, c) && s.callers[c].place.Waiting?
    ensures Work(Enter(s, c)) < Work(s)
  {
    var t := Enter(s, c);
    SentBelowHorizon(s, s.callers[c].place.k);
    if s.promise.Some? {
      SentBelowHorizon(s, s.promise.value);
    }
    MoveUsesWork(s, t, c, t.callers[c]);
  }

  lemma ReturnUsesWork<J>(s: Editor<J>, c: nat, outcome: Outcome)
    requires Inv(s) && LastPut(s) && Runnable(s, c) && s.callers[c].place == Returned(outcome)
    ensures Work(AfterPersist(s, c, outcome)) < Work(s)
  {
    assert CallerOk(s, c);
    var t := AfterPersist(s, c, outcome);
    assert t.callers == s.callers[c := t.callers[c]];
    MoveUsesWork(s, t, c, t.callers[c]);
  }

  lemma {:induction false} RunKeepsLastPut<J>(s: Editor<J>, events: seq<Event<J>>)
    requires Inv(s) && LastPut(s) && CanRun(s, events)
    ensures LastPut(After(s, events))
    decreases |events|
  {
    if events != [] {
      NextKeepsInv(s, events[0]);
      NextKeepsLastPut(s, events[0]);
      RunKeepsLastPut(Next(s, events[0]), events[1..]);
    }
  }

  lemma {:induction false} WorkBoundsRun<J>(s: Editor<J>, events: seq<Event<J>>)
    requires Inv(s) && LastPut(s) && CanRun(s, events) && AllInternal(events)
    ensures |events| <= Work(s) && Inv(After(s, events))
    decreases |events|
  {
    if events != [] {
      NextKeepsInv(s, events[0]);
      NextKeepsLastPut(s, events[0]);
      InternalUsesWork(s, events[0]);
      WorkBoundsRun(Next(s, events[0]), events[1..]);
    }
  }

  /** From every reachable state, with no further calls and edits and whatever fails: every order
      of the remaining steps is finite, and can only stop once every call has returned. */
  lemma EveryCallEnds<J>(server: Option<J>, before: seq<Event<J>>, events: seq<Event<J>>)
    requires CanRun(Mounted(server), before)
    requires CanRun(After(Mounted(server), before), events) && AllInternal(events)
    ensures var s := After(Mounted(server), before);
            && |events| <= Work(s)
            && ((forall e: Event<J> | Internal(e) :: !Enabled(After(s, events), e)) <==> AtRest(After(s, events)))
  {
    var s := After(Mounted(server), before);
    MountedInv(server);
    RunKeepsInv(Mounted(server), before);
    RunKeepsLastPut(Mounted(server), before);
    WorkBoundsRun(s, events);
    Progress(After(s, events));
  }

  // ---------------------------------------------------------------------
  // Why a build ends without a commit
  // ---------------------------------------------------------------------

  /** The PUT that caller c sent itself has failed, and c is about to learn of it. */
  predicate OwnFailed<J>(s: Editor<J>, c: nat) {
    c < |s.callers| && s.callers[c].place.Own?
    && s.callers[c].place.k < |s.puts| && s.puts[s.callers[c].place.k].status.Failed?
  }

  ghost predicate OwnFails<J>(s: Editor<J>, events: seq<Event<J>>, c: nat)
    requires CanRun(s, events)
    decreases |events|
  {
    OwnFailed(s, c) || (events != [] && OwnFails(Next(s, events[0]), events[1..], c))
  }

  /** flushPendingSave returns true to caller c. */
  ghost predicate Flushes<J>(s: Editor<J>, events: seq<Event<J>>, c: nat)
    requires CanRun(s, events)
    decreases |events|
  {
    (c < |s.callers| && s.callers[c].place.CommitDue?) || (events != [] && Flushes(Next(s, events[0]), events[1..], c))
  }

  /** A pass of the flush of caller c ends here, its save accepted, with the draft dirty again. */
  predicate PassWasted<J(==)>(s: Editor<J>, e: Event<J>, c: nat) {
    e == Continues(c) && c < |s.callers| && s.callers[c].place == Returned(Outcome(true)) && !Clean(s)
  }

  ghost function WastedPasses<J>(s: Editor<J>, events: seq<Event<J>>, c: nat): nat
    requires CanRun(s, events)
    decreases |events|
  {
    if events == [] then 0
    else (if PassWasted(s, events[0], c) then 1 else 0) + WastedPasses(Next(s, events[0]), events[1..], c)
  }

  /** How often the draft was edited or replaced. */
  function Changes<J>(events: seq<Event<J>>): nat
    decreases |events|
  {
    if events == [] then 0
    else (if events[0].Edits? || events[0].Delivers? then 1 else 0) + Changes(events[1..])
  }

  /** A PUT that succeeded is the baseline until its sender has noticed. */
  ghost predicate SendersSaved<J>(s: Editor<J>) {
    forall c | 0 <= c < |s.callers| :: SenderSaved(s, c)
  }

  ghost predicate SenderSaved<J>(s: Editor<J>, c: nat)
    requires c < |s.callers|
  {
    s.callers[c].place.Own? && s.callers[c].place.k < |s.puts| && s.puts[s.callers[c].place.k].status.Succeeded?
    ==> s.saved == Some(s.puts[s.callers[c].place.k].payload)
  }

  lemma NextKeepsSenders<J>(s: Editor<J>, e: Event<J>)
    requires Inv(s) && SendersSaved(s) && Enabled(s, e)
    ensures SendersSaved(Next(s, e))
  {
    match e {
      case Continues(c) => ResumeKeepsSenders(s, c);
      case Calls(kind) => EnterKeepsSenders(s, kind);
      case _ => OtherKeepsSenders(s, e);
    }
  }

  lemma ResumeKeepsSenders<J>(s: Editor<J>, c: nat)
    requires Inv(s) && SendersSaved(s) && Runnable(s, c)
    ensures SendersSaved(Resume(s, c))
  {
    var t := Resume(s, c);
    forall d | 0 <= d < |t.callers| ensures SenderSaved(t, d) {
      assert SenderSaved(s, d) && CallerOk(s, d);
    }
  }

  lemma EnterKeepsSenders<J>(s: Editor<J>, kind: Kind)
    requires Inv(s) && SendersSaved(s) && Enabled(s, Calls(kind))
    ensures SendersSaved(Call(s, kind))
  {
    var t := Call(s, kind);
    forall d | 0 <= d < |t.callers| ensures SenderSaved(t, d) {
      if d < |s.callers| {
        assert SenderSaved(s, d) && CallerOk(s, d);
      }
    }
  }

  lemma OtherKeepsSenders<J>(s: Editor<J>, e: Event<J>)
    requires Inv(s) && SendersSaved(s) && Enabled(s, e) && !e.Continues? && !e.Calls?
    ensures SendersSaved(Next(s, e))
  {
    var t := Next(s, e);
    forall c | 0 <= c < |t.callers| ensures SenderSaved(t, c) {
      assert SenderSaved(s, c) && CallerOk(s, c);
      assert Idle(s) ==> !Runnable(s, c);
    }
  }

  /** The draft has changed since caller c's present save was sent, or returned. */
  predicate Disturbed<J(==)>(s: Editor<J>, c: nat) {
    c < |s.callers| &&
    match s.callers[c].place
    case Own(k) => k < |s.puts| && s.draft != Some(s.puts[k].payload)
    case Returned(outcome) => outcome.ok && !Clean(s)
    case _ => false
  }

  function Count(b: bool): nat { if b then 1 else 0 }

  /** What a step of the caller itself leaves undisturbed. */
  lemma OwnStepPays<J>(s: Editor<J>, c: nat)
    requires Inv(s) && SendersSaved(s) && Runnable(s, c)
    ensures Count(PassWasted(s, Continues(c), c)) + Count(Disturbed(Resume(s, c), c)) <= Count(Disturbed(s, c))
  {
    assert CallerOk(s, c) && SenderSaved(s, c);
  }

  /** The two states agree on everything Disturbed looks at. */
  ghost predicate SameFor<J>(s: Editor<J>, t: Editor<J>, c: nat) {
    && c < |s.callers| && c < |t.callers| && t.callers[c] == s.callers[c]
    && t.draft == s.draft && t.saved == s.saved && |s.puts| <= |t.puts|
    && (forall k | 0 <= k < |s.puts| :: t.puts[k] == s.puts[k])
  }

  lemma OtherResumeIsSame<J>(s: Editor<J>, d: nat, c: nat)
    requires Runnable(s, d) && c < |s.callers| && d != c
    ensures SameFor(s, Resume(s, d), c)
  {
  }

  lemma CallIsSame<J>(s: Editor<J>, kind: Kind, c: nat)
    requires c < |s.callers|
    ensures SameFor(s, Call(s, kind), c)
  {
  }

  lemma SameDisturbed<J>(s: Editor<J>, t: Editor<J>, c: nat)
    requires SameFor(s, t, c) && CallerOk(s, c)
    ensures Disturbed(t, c) <==> Disturbed(s, c)
  {
  }

  lemma OthersDoNotDisturb<J>(s: Editor<J>, e: Event<J>, c: nat)
    requires Inv(s) && Enabled(s, e) && c < |s.callers|
    requires (e.Continues? && e.c != c) || e.Calls?
    ensures Disturbed(Next(s, e), c) <==> Disturbed(s, c)
  {
    assert CallerOk(s, c);
    hide Inv, CallerOk, SameFor, Disturbed, Resume, Call, Runnable;
    match e {
      case Continues(d) => OtherResumeIsSame(s, d, c);
      case Calls(kind) => CallIsSame(s, kind, c);
    }
    SameDisturbed(s, Next(s, e), c);
  }

  lemma ServerDoesNotDisturb<J>(s: Editor<J>, e: Event<J>, c: nat)
    requires Inv(s) && Enabled(s, e) && c < |s.callers|
    requires !e.Continues? && !e.Calls? && !e.Edits? && !e.Delivers?
    ensures Disturbed(Next(s, e), c) ==> Disturbed(s, c)
  {
    assert CallerOk(s, c);
    assert Idle(s) ==> !Runnable(s, c);
  }

  /** Each step pays for the disturbances it leaves and the passes it wastes. */
  lemma StepPays<J>(s: Editor<J>, e: Event<J>, c: nat)
    requires Inv(s) && SendersSaved(s) && Enabled(s, e) && c < |s.callers|
    ensures Count(PassWasted(s, e, c)) + Count(Disturbed(Next(s, e), c))
         <= Count(e.Edits? || e.Delivers?) + Count(Disturbed(s, c))
  {
    hide Disturbed, Inv, SendersSaved;
    if e == Continues(c) {
      OwnStepPays(s, c);
    } else if e.Continues? || e.Calls? {
      OthersDoNotDisturb(s, e, c);
    } else if !e.Edits? && !e.Delivers? {
      ServerDoesNotDisturb(s, e, c);
    }
  }

  lemma {:induction false} WastedNeedsChange<J>(s: Editor<J>, events: seq<Event<J>>, c: nat)
    requires Inv(s) && SendersSaved(s) && CanRun(s, events) && c < |s.callers|
    ensures WastedPasses(s, events, c) <= Changes(events) + Count(Disturbed(s, c))
    decreases |events|
  {
    if events != [] {
      NextKeepsInv(s, events[0]);
      NextKeepsSenders(s, events[0]);
      StepPays(s, events[0], c);
      WastedNeedsChange(Next(s, events[0]), events[1..], c);
    }
  }

  /** Caller c is in a pass of its flush, and its save has not failed. */
  predicate Flushing<J>(s: Editor<J>, c: nat) {
    c < |s.callers| && s.callers[c].kind.Build? && s.callers[c].kind.attempt < MAX_PASSES
    && (s.callers[c].place.Waiting? || s.callers[c].place.Own? || s.callers[c].place == Returned(Outcome(true)))
  }

  /** One step of a flushing caller: it learns of a failure, succeeds, wastes its last pass, goes on
      to its next pass, or stays in this one. */
  lemma FlushingStep<J>(s: Editor<J>, e: Event<J>, c: nat)
    requires Inv(s) && Enabled(s, e) && Flushing(s, c) && !OwnFailed(s, c)
    ensures var t := Next(s, e);
            && c < |t.callers|
            && (t.callers[c].place.CommitDue?
                || (PassWasted(s, e, c) && s.callers[c].kind.attempt + 1 == MAX_PASSES && t.callers[c].place.Done?)
                || (Flushing(t, c) && t.callers[c].kind.attempt == s.callers[c].kind.attempt + Count(PassWasted(s, e, c))))
  {
    assert CallerOk(s, c);
  }

  lemma {:induction false} DoneStays<J>(s: Editor<J>, events: seq<Event<J>>, c: nat)
    requires Inv(s) && CanRun(s, events) && c < |s.callers| && s.callers[c].place.Done?
    ensures WastedPasses(s, events, c) == 0
    decreases |events|
  {
    if events != [] {
      NextKeepsInv(s, events[0]);
      StepHoldsServer(s, events[0], c);
      DoneStays(Next(s, events[0]), events[1..], c);
    }
  }

  lemma {:induction false} FlushEndsOnlyIf<J>(s: Editor<J>, events: seq<Event<J>>, c: nat)
    requires Inv(s) && CanRun(s, events) && Flushing(s, c)
    ensures var t := After(s, events);
            c < |t.callers| && t.callers[c].place.Done? && !Flushes(s, events, c) && !OwnFails(s, events, c) ==>
              s.callers[c].kind.attempt + WastedPasses(s, events, c) == MAX_PASSES
    decreases |events|
  {
    if events != [] && !OwnFailed(s, c) {
      var t := Next(s, events[0]);
      NextKeepsInv(s, events[0]);
      FlushingStep(s, events[0], c);
      if Flushing(t, c) {
        FlushEndsOnlyIf(t, events[1..], c);
      } else if t.callers[c].place.CommitDue? {
        assert Flushes(t, events[1..], c);
      } else {
        DoneStays(t, events[1..], c);
      }
    }
  }

  lemma {:induction false} RunKeepsSenders<J>(s: Editor<J>, events: seq<Event<J>>)
    requires Inv(s) && SendersSaved(s) && CanRun(s, events)
    ensures SendersSaved(After(s, events))
    decreases |events|
  {
    if events != [] {
      NextKeepsInv(s, events[0]);
      NextKeepsSenders(s, events[0]);
      RunKeepsSenders(Next(s, events[0]), events[1..]);
    }
  }

  /** A build begun in any reachable state that has ended without a successful flush: one of its own
      PUTs has failed, or each of its four passes ended with the draft dirty again - and then the
      draft was changed at least four times meanwhile. */
  lemma BuildGivesUpOnlyIf<J>(server: Option<J>, before: seq<Event<J>>, during: seq<Event<J>>)
    requires CanRun(Mounted(server), before) && Enabled(After(Mounted(server), before), Calls(Build(0)))
    requires CanRun(Call(After(Mounted(server), before), Build(0)), during)
    ensures var s := After(Mounted(server), before);
            var begun, c := Call(s, Build(0)), |s.callers|;
            var t := After(begun, during);
            c < |t.callers| && t.callers[c].place.Done? && !Flushes(begun, during, c) && !OwnFails(begun, during, c) ==>
              WastedPasses(begun, during, c) == MAX_PASSES <= Changes(during)
  {
    var s := After(Mounted(server), before);
    var begun, c := Call(s, Build(0)), |s.callers|;
    MountedInv(server);
    RunKeepsInv(Mounted(server), before);
    RunKeepsSenders(Mounted(server), before);
    NextKeepsInv(s, Calls(Build(0)));
    NextKeepsSenders(s, Calls(Build(0)));
    FlushEndsOnlyIf(begun, during, c);
    WastedNeedsChange(begun, during, c);
  }

  // ---------------------------------------------------------------------
  // What a save that has returned has done
  // ---------------------------------------------------------------------

  /** No PUT is in flight and the baseline is one of these drafts. */
  ghost predicate Stored<J>(s: Editor<J>, drafts: set<J>) {
    s.promise.None? && s.saved.Some? && s.saved.value in drafts
  }

  /** The drafts shown so far, the present one included. */
  ghost function Shown<J>(s: Editor<J>, earlier: set<J>): set<J> {
    earlier + if s.draft.Some? then {s.draft.value} else {}
  }

  /** At some moment of the run a draft shown by then, at the start or later, is the baseline with
      no PUT in flight. */
  ghost predicate StoresShown<J>(s: Editor<J>, events: seq<Event<J>>, earlier: set<J>)
    requires CanRun(s, events)
    decreases |events|
  {
    Stored(s, Shown(s, earlier)) || (events != [] && StoresShown(Next(s, events[0]), events[1..], Shown(s, earlier)))
  }

  /** A manual save or autosave waits for a PUT, or for its own, which carries a draft that was shown. */
  ghost predicate Saving<J>(s: Editor<J>, c: nat, shown: set<J>) {
    && c < |s.callers| && !s.callers[c].kind.Build?
    && match s.callers[c].place
       case Waiting(_) => true
       case Own(k) => k < |s.puts| && Active(s.puts[k].status) && s.puts[k].payload in shown
       case _ => false
  }

  /** A step leaves it saving, stores a draft that was shown, or fails its PUT. */
  lemma SavingStep<J>(s: Editor<J>, e: Event<J>, c: nat, shown: set<J>)
    requires Inv(s) && Enabled(s, e) && Saving(s, c, shown) && s.draft.Some? && s.draft.value in shown
    ensures Saving(Next(s, e), c, shown) || Stored(s, shown) || Stored(Next(s, e), shown) || OwnFailed(Next(s, e), c)
  {
    assert CallerOk(s, c);
    if e == Continues(c) {
      assert s.callers[c].place.Waiting?;
    }
  }

  lemma {:induction false} SaverStores<J>(s: Editor<J>, events: seq<Event<J>>, c: nat, earlier: set<J>)
    requires Inv(s) && CanRun(s, events) && Saving(s, c, Shown(s, earlier)) && s.draft.Some?
    ensures var t := After(s, events);
            c < |t.callers| && t.callers[c].place.Done? && !OwnFails(s, events, c) ==> StoresShown(s, events, earlier)
    decreases |events|
  {
    if events != [] && !Stored(s, Shown(s, earlier)) {
      var t, shown := Next(s, events[0]), Shown(s, earlier);
      NextKeepsInv(s, events[0]);
      SavingStep(s, events[0], c, shown);
      CallersStay(s, events[0], c);
      if Stored(t, shown) {
        assert Stored(t, Shown(t, shown));
      } else if Saving(t, c, shown) {
        SaverStores(t, events[1..], c, shown);
      } else {
        assert OwnFails(t, events[1..], c);
      }
    }
  }

  lemma CallersStay<J>(s: Editor<J>, e: Event<J>, c: nat)
    requires Inv(s) && Enabled(s, e) && c < |s.callers|
    ensures c < |Next(s, e).callers| && Next(s, e).draft.Some?
  {
    assert s.callers != [];
  }

  /** The draft is the baseline and no PUT is in flight. */
  predicate Settled<J(==)>(s: Editor<J>) { s.promise.None? && Clean(s) }

  /** It stays so until the draft is changed. */
  lemma StepKeepsSettled<J>(s: Editor<J>, e: Event<J>)
    requires Inv(s) && Enabled(s, e) && !e.Edits? && !e.Delivers? && Settled(s)
    ensures Settled(Next(s, e)) && Next(s, e).draft == s.draft
  {
  }

  lemma {:induction false} UnchangedRun<J>(s: Editor<J>, events: seq<Event<J>>)
    requires Inv(s) && CanRun(s, events) && Changes(events) == 0 && s.draft.Some?
    ensures After(s, events).draft == s.draft
    ensures StoresShown(s, events, {}) ==> Settled(After(s, events))
    decreases |events|
  {
    if Settled(s) {
      SettledRun(s, events);
    } else if events != [] {
      var t := Next(s, events[0]);
      NextKeepsInv(s, events[0]);
      StepKeepsDraft(s, events[0]);
      UnchangedRun(t, events[1..]);
      if StoresShown(s, events, {}) {
        assert Shown(s, {}) == {s.draft.value} && Shown(t, {}) == {s.draft.value};
        SameShown(t, events[1..], {s.draft.value}, {});
      }
    }
  }

  lemma StepKeepsDraft<J>(s: Editor<J>, e: Event<J>)
    requires Enabled(s, e) && !e.Edits? && !e.Delivers?
    ensures Next(s, e).draft == s.draft
  {
  }

  lemma {:induction false} SettledRun<J>(s: Editor<J>, events: seq<Event<J>>)
    requires Inv(s) && CanRun(s, events) && Changes(events) == 0 && Settled(s)
    ensures After(s, events).draft == s.draft && Settled(After(s, events))
    decreases |events|
  {
    if events != [] {
      NextKeepsInv(s, events[0]);
      StepKeepsSettled(s, events[0]);
      SettledRun(Next(s, events[0]), events[1..]);
    }
  }

  /** Only the drafts shown so far matter. */
  lemma SameShown<J>(s: Editor<J>, events: seq<Event<J>>, a: set<J>, b: set<J>)
    requires CanRun(s, events) && Shown(s, a) == Shown(s, b)
    ensures StoresShown(s, events, a) <==> StoresShown(s, events, b)
  {
  }

  /** A save begun in any reachable state, pressed by the user or automatic, that has returned: its
      own PUT has failed, or a draft shown since it was called has become the baseline. If the draft
      was not changed meanwhile, it is that draft, and the server holds it when every adopted answer
      was current on adoption. */
  lemma SaveMeansSaved<J>(server: Option<J>, before: seq<Event<J>>, kind: Kind, during: seq<Event<J>>)
    requires CanRun(Mounted(server), before) && !kind.Build? && Enabled(After(Mounted(server), before), Calls(kind))
    requires CanRun(Call(After(Mounted(server), before), kind), during)
    ensures var s := After(Mounted(server), before);
            var begun, c := Call(s, kind), |s.callers|;
            var t := After(begun, during);
            c < |t.callers| && t.callers[c].place.Done? && !OwnFails(begun, during, c) ==>
              && StoresShown(begun, during, {})
              && (Changes(during) == 0 ==>
                    && t.draft == s.draft == t.saved && t.promise.None?
                    && (FreshRun(Mounted(server), before) && FreshRun(begun, during) ==> Server(t) == s.draft))
  {
    var s := After(Mounted(server), before);
    var begun, c := Call(s, kind), |s.callers|;
    MountedInv(server);
    RunKeepsInv(Mounted(server), before);
    NextKeepsInv(s, Calls(kind));
    BeginsSaving(s, kind);
    if !Stored(begun, Shown(begun, {})) {
      SaverStores(begun, during, c, {});
    }
    if Changes(during) == 0 {
      UnchangedRun(begun, during);
    }
    if FreshRun(Mounted(server), before) && FreshRun(begun, during) {
      FreshRunKeepsBaseline(Mounted(server), before);
      CallKeepsBaseline(s, kind);
      FreshRunKeepsBaseline(begun, during);
    }
  }

  lemma BeginsSaving<J>(s: Editor<J>, kind: Kind)
    requires Inv(s) && Enabled(s, Calls(kind)) && !kind.Build?
    ensures var begun := Call(s, kind);
            begun.draft == s.draft && s.draft.Some?
            && (Saving(begun, |s.callers|, Shown(begun, {})) || Stored(begun, Shown(begun, {})))
  {
  }

  lemma CallKeepsBaseline<J>(s: Editor<J>, kind: Kind)
    requires Inv(s) && BaselineIsServer(s) && Enabled(s, Calls(kind))
    ensures OnePut(Call(s, kind)) && BaselineIsServer(Call(s, kind))
  {
    StepKeepsBaseline(s, Calls(kind));
  }
}
