/** The plan editor's save and commit protocol (apps/web/src/PlanEditor.tsx) as a
    transition system. Drafts are compared by their JSON, so a draft is its JSON here.
    Browser events happen only when no promise continuation is due; continuations run
    in any order. */
module PlanSaveModel {
  import opened Wrappers

  /** A draft PUT: on its way, applied by the server, answered, or failed unapplied. */
  datatype Status = OnItsWay | Applied | Succeeded | Failed

  datatype Put<J> = Put(payload: J, status: Status)

  /** What persistDraft resolves to. */
  datatype Outcome = Outcome(ok: bool)

  /** Where a caller of persistDraft is suspended. */
  datatype Place<J> =
    | Waiting(k: nat)            // persistDraft awaits PUT k of somebody else
    | Own(k: nat)                // persistDraft awaits the PUT it sent
    | Returned(outcome: Outcome) // persistDraft resolved, the caller continues next
    | CommitDue                  // flushPendingSave returned true, build3d continues next
    | Committing(plan: J)        // commitPlanDraft is on its way
    | Done

  /** Build carries the flush attempt it is on. */
  datatype Kind = Autosave | Manual | Build(attempt: nat)

  datatype Caller<J> = Caller(kind: Kind, place: Place<J>)

  /** A GET of the draft that the server has answered with the copy it then had. */
  datatype Get<J> = Get(copy: J, delivered: bool)

  /** draft, saved, saving and promise are the refs; `promise` names the PUT in flight.
      `versions` are the copies the server has held, the current one last, `gets` the answers
      given so far, and `committed` the plans turned into scenes. */
  datatype Editor<J> = Editor(
    draft: Option<J>,
    saved: Option<J>,
    saving: bool,
    promise: Option<nat>,
    busy: bool,
    puts: seq<Put<J>>,
    callers: seq<Caller<J>>,
    versions: seq<Option<J>>,
    gets: seq<Get<J>>,
    committed: seq<J>)

  /** The server's copy. */
  function Server<J>(s: Editor<J>): Option<J> {
    if s.versions == [] then None else s.versions[|s.versions| - 1]
  }

  const MAX_PASSES := 4

  predicate Active(p: Status) { p.OnItsWay? || p.Applied? }

  function At<J>(s: Editor<J>, c: nat, place: Place<J>): Editor<J>
    requires c < |s.callers|
  {
    s.(callers := s.callers[c := s.callers[c].(place := place)])
  }

  /** persistDraft from the top of its while loop to its next await or return. */
  function Enter<J(==)>(s: Editor<J>, c: nat): Editor<J>
    requires c < |s.callers|
  {
    if s.saving && s.promise.Some? then At(s, c, Waiting(s.promise.value))
    else if s.draft.None? then At(s, c, Returned(Outcome(false)))
    else if s.saved == s.draft then At(s, c, Returned(Outcome(true)))
    else
      At(s, c, Own(|s.puts|)).(saving := true, promise := Some(|s.puts|), puts := s.puts + [Put(s.draft.value, OnItsWay)])
  }

  predicate Answered<J>(s: Editor<J>, k: nat) {
    k < |s.puts| && !Active(s.puts[k].status)
  }

  /** A continuation of caller `c` is due. */
  predicate Runnable<J>(s: Editor<J>, c: nat) {
    c < |s.callers| &&
    match s.callers[c].place
    case Waiting(k) => Answered(s, k)
    case Own(k) => Answered(s, k)
    case Returned(_) => true
    case CommitDue => true
    case _ => false
  }

  ghost predicate Idle<J>(s: Editor<J>) {
    forall c | 0 <= c < |s.callers| :: !Runnable(s, c)
  }

  /** The caller is over; manual saves and builds clear `busy`. */
  function Finish<J>(s: Editor<J>, c: nat): Editor<J>
    requires c < |s.callers|
  {
    At(s, c, Done).(busy := s.busy && s.callers[c].kind.Autosave?)
  }

  /** The server copy is the local draft, as far as the editor can tell. */
  predicate Clean<J(==)>(s: Editor<J>) {
    s.draft.Some? && s.saved == s.draft
  }

  /** The continuation of a caller whose persistDraft has resolved. For a build this is one
      turn of flushPendingSave's loop; after the last pass its final check repeats the test
      just failed, so it returns false. */
  function AfterPersist<J(==)>(s: Editor<J>, c: nat, outcome: Outcome): Editor<J>
    requires c < |s.callers|
  {
    match s.callers[c].kind
    case Autosave => Finish(s, c)
    case Manual => Finish(s, c)
    case Build(attempt) =>
      if !outcome.ok || s.draft.None? then Finish(s, c)
      else if Clean(s) then At(s, c, CommitDue)
      else if attempt + 1 < MAX_PASSES then
        Enter(s.(callers := s.callers[c := s.callers[c].(kind := Build(attempt + 1))]), c)
      else Finish(s, c)
  }

  function Resume<J(==)>(s: Editor<J>, c: nat): Editor<J>
    requires Runnable(s, c)
  {
    match s.callers[c].place
    case Waiting(_) => Enter(s, c)
    case Own(k) => At(s, c, Returned(Outcome(s.puts[k].status.Succeeded?)))
    case Returned(outcome) => AfterPersist(s, c, outcome)
    case CommitDue => if s.draft.Some? then At(s, c, Committing(s.draft.value)) else s
  }

  /** A new call of persistDraft, saveDraft or build3d. */
  function Call<J(==)>(s: Editor<J>, kind: Kind): Editor<J> {
    Enter(s.(busy := s.busy || !kind.Autosave?, callers := s.callers + [Caller(kind, Done)]), |s.callers|)
  }

  /** The PUT in flight is answered: on success its payload becomes the baseline. */
  function Answer<J>(s: Editor<J>, ok: bool): Editor<J>
    requires s.promise.Some? && s.promise.value < |s.puts|
  {
    var k := s.promise.value;
    var put := s.puts[k];
    s.(saved := if ok then Some(put.payload) else s.saved, saving := false, promise := None,
       puts := s.puts[k := put.(status := if ok then Succeeded else Failed)])
  }

  datatype Event<J> =
    | Edits(next: J)            // updateDraft
    | Fetches                   // the server answers a GET with its copy
    | Delivers(g: nat)          // that answer arrives, and adoptDraft takes it
    | Calls(kind: Kind)
    | Continues(c: nat)
    | PutApplies                // the server stores the payload
    | PutAnswers(ok: bool)
    | CommitApplies(c: nat)     // the server builds a scene from its copy
    | CommitAnswers(c: nat)

  /** Single writer: only PUTs change the server copy, and a failed PUT was not applied. Answers
      to GETs may arrive late, and in any order. */
  ghost predicate Enabled<J>(s: Editor<J>, e: Event<J>) {
    match e
    case Edits(_) => Idle(s) && s.draft.Some?
    case Fetches => Server(s).Some?
    case Delivers(g) => Idle(s) && g < |s.gets| && !s.gets[g].delivered
    case Calls(kind) =>
      Idle(s) && s.draft.Some? && !s.busy && (kind.Build? ==> kind.attempt == 0) && (kind.Autosave? ==> s.saved != s.draft)
    case Continues(c) => Runnable(s, c)
    case PutApplies => s.promise.Some? && s.promise.value < |s.puts| && s.puts[s.promise.value].status.OnItsWay?
    case PutAnswers(ok) =>
      Idle(s) && s.promise.Some? && s.promise.value < |s.puts|
      && (if ok then s.puts[s.promise.value].status.Applied? else s.puts[s.promise.value].status.OnItsWay?)
    case CommitApplies(c) => c < |s.callers| && s.callers[c].place.Committing? && Server(s).Some?
    case CommitAnswers(c) => Idle(s) && c < |s.callers| && s.callers[c].place.Committing?
  }

  function Next<J(==)>(s: Editor<J>, e: Event<J>): Editor<J>
    requires Enabled(s, e)
  {
    match e
    case Edits(next) => s.(draft := Some(next))
    case Fetches => s.(gets := s.gets + [Get(Server(s).value, false)])
    case Delivers(g) => Adopt(s.(gets := s.gets[g := s.gets[g].(delivered := true)]), s.gets[g].copy)
    case Calls(kind) => Call(s, kind)
    case Continues(c) => Resume(s, c)
    case PutApplies =>
      var put := s.puts[s.promise.value];
      s.(versions := s.versions + [Some(put.payload)], puts := s.puts[s.promise.value := put.(status := Applied)])
    case PutAnswers(ok) => Answer(s, ok)
    case CommitApplies(c) => s.(committed := s.committed + [Server(s).value])
    case CommitAnswers(c) => Finish(s, c)
  }

  /** adoptDraft: draft and baseline move together. */
  function Adopt<J>(s: Editor<J>, next: J): Editor<J> {
    s.(draft := Some(next), saved := Some(next))
  }

  /** A freshly mounted editor; the server may already hold a draft. */
  function Mounted<J>(server: Option<J>): Editor<J> {
    Editor(None, None, false, None, false, [], [], [server], [], [])
  }

  ghost predicate CanRun<J>(s: Editor<J>, events: seq<Event<J>>)
    decreases |events|
  {
    events == [] || (Enabled(s, events[0]) && CanRun(Next(s, events[0]), events[1..]))
  }

  function After<J(==)>(s: Editor<J>, events: seq<Event<J>>): Editor<J>
    requires CanRun(s, events)
    decreases |events|
  {
    if events == [] then s else After(Next(s, events[0]), events[1..])
  }

  // ---------------------------------------------------------------------
  // Where the baseline comes from, read off the events alone
  // ---------------------------------------------------------------------

  /** The last thing that moved the baseline. */
  datatype Move = Unmoved | BySave | ByDelivery(g: nat)

  /** How many PUTs were applied so far, and how many each GET had seen when it was answered. */
  datatype Track = Track(applied: nat, seen: seq<nat>, move: Move)

  const START := Track(0, [], Unmoved)

  function Follow<J>(t: Track, e: Event<J>): Track {
    match e
    case PutApplies => t.(applied := t.applied + 1)
    case Fetches => t.(seen := t.seen + [t.applied])
    case PutAnswers(ok) => if ok then t.(move := BySave) else t
    case Delivers(g) => t.(move := ByDelivery(g))
    case _ => t
  }

  function FollowAll<J>(t: Track, events: seq<Event<J>>): Track
    decreases |events|
  {
    if events == [] then t else FollowAll(Follow(t, events[0]), events[1..])
  }

  /** The baseline was last moved by a successful PUT, or by an answer that no PUT has overtaken. */
  predicate UpToDate(t: Track) {
    t.move.BySave? || (t.move.ByDelivery? && t.move.g < |t.seen| && t.seen[t.move.g] == t.applied)
  }
}
