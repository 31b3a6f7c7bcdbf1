/** The notes persister of apps/web/src/briefView.ts as a transition system. Each
    event is one piece of code that runs without interruption between awaits. */
module NotesModel {
  import opened Wrappers

  /** A scheduled value and its place in the order of schedule() calls. */
  datatype Edit<N> = Edit(at: nat, notes: N)

  /** The run() that sent PATCH k: awaiting it, about to continue after it, or over. */
  datatype Phase = InFlight | Settled(ok: bool) | Finished(ok: bool)

  /** One flush() call: awaiting `current`, awaiting its own run(), returned or thrown. */
  datatype Flusher = OnPatch(k: nat) | OnRun(k: nat) | Drained | Failed

  /** timer, pending and current are the closure's variables; `current` names the PATCH in
      flight. runs and flushers are the suspended calls; the rest is history. */
  datatype Persister<N> = Persister(
    timer: bool,
    pending: Option<Edit<N>>,
    current: Option<nat>,
    runs: seq<Phase>,
    flushers: seq<Flusher>,
    scheduled: seq<N>,
    sent: seq<Edit<N>>,
    droppedNewest: bool)

  function Fresh<N>(): Persister<N> {
    Persister(false, None, None, [], [], [], [], false)
  }

  /** What run() does up to its first await. */
  function RunCall<N>(s: Persister<N>): Persister<N> {
    if s.current.Some? || s.pending.None? then s else Send(s)
  }

  function Send<N>(s: Persister<N>): Persister<N>
    requires s.pending.Some?
  {
    s.(pending := None, current := Some(|s.runs|), runs := s.runs + [InFlight], sent := s.sent + [s.pending.value])
  }

  function Schedule<N>(s: Persister<N>, next: N): Persister<N> {
    s.(pending := Some(Edit(|s.scheduled|, next)), timer := true, scheduled := s.scheduled + [next], droppedNewest := false)
  }

  function Fire<N>(s: Persister<N>): Persister<N> {
    RunCall(s.(timer := false))
  }

  /** The PATCH in flight settles and its finally block runs. */
  function Settle<N>(s: Persister<N>, ok: bool): Persister<N>
    requires s.current.Some? && s.current.value < |s.runs|
  {
    s.(current := None, runs := s.runs[s.current.value := Settled(ok)])
  }

  /** run() continues after its await: the follow-up on success, a throw otherwise. */
  function ResumeRun<N>(s: Persister<N>, k: nat): Persister<N>
    requires k < |s.runs| && s.runs[k].Settled?
  {
    var after := s.(runs := s.runs[k := Finished(s.runs[k].ok)]);
    if s.runs[k].ok && s.pending.Some? then RunCall(after) else after
  }

  /** One evaluation of flush's loop test by flusher `f`, up to its next await. */
  function LoopTest<N>(s: Persister<N>, f: nat): Persister<N>
    requires f < |s.flushers|
  {
    if s.current.Some? then s.(flushers := s.flushers[f := OnPatch(s.current.value)])
    else if s.pending.Some? then Send(s).(flushers := s.flushers[f := OnRun(|s.runs|)])
    else s.(flushers := s.flushers[f := Drained])
  }

  function Flush<N>(s: Persister<N>): Persister<N> {
    LoopTest(s.(timer := false, flushers := s.flushers + [Drained]), |s.flushers|)
  }

  /** The awaited promise of flusher `f` has settled. */
  predicate Resumable<N>(s: Persister<N>, f: nat) {
    f < |s.flushers| &&
    match s.flushers[f]
    case OnPatch(k) => k < |s.runs| && !s.runs[k].InFlight?
    case OnRun(k) => k < |s.runs| && s.runs[k].Finished?
    case _ => false
  }

  function ResumeFlush<N>(s: Persister<N>, f: nat): Persister<N>
    requires Resumable(s, f)
  {
    if s.runs[s.flushers[f].k].ok then LoopTest(s, f) else s.(flushers := s.flushers[f := Failed])
  }

  function Dispose<N>(s: Persister<N>): Persister<N> {
    if s.current.None? then s.(timer := false, pending := None, droppedNewest := s.droppedNewest || s.pending.Some?)
    else s.(timer := false)
  }

  datatype Event<N> =
    | Schedules(next: N) | Fires | Settles(ok: bool) | RunResumes(k: nat) | Flushes | FlushResumes(f: nat) | Disposes

  predicate Enabled<N>(s: Persister<N>, e: Event<N>) {
    match e
    case Fires => s.timer
    case Settles(_) => s.current.Some? && s.current.value < |s.runs|
    case RunResumes(k) => k < |s.runs| && s.runs[k].Settled?
    case FlushResumes(f) => Resumable(s, f)
    case _ => true
  }

  function Next<N>(s: Persister<N>, e: Event<N>): Persister<N>
    requires Enabled(s, e)
  {
    match e
    case Schedules(next) => Schedule(s, next)
    case Fires => Fire(s)
    case Settles(ok) => Settle(s, ok)
    case RunResumes(k) => ResumeRun(s, k)
    case Flushes => Flush(s)
    case FlushResumes(f) => ResumeFlush(s, f)
    case Disposes => Dispose(s)
  }

  ghost predicate CanRun<N>(s: Persister<N>, events: seq<Event<N>>)
    decreases |events|
  {
    events == [] || (Enabled(s, events[0]) && CanRun(Next(s, events[0]), events[1..]))
  }

  function After<N>(s: Persister<N>, events: seq<Event<N>>): Persister<N>
    requires CanRun(s, events)
    decreases |events|
  {
    if events == [] then s else After(Next(s, events[0]), events[1..])
  }
}
