# Verified models of the STROY design tool

Dafny models of the parts of STROY whose correctness is hardest to see from the code, with
proofs that hold for every input, every run or every reachable state.

- **Camera pose solver** (`Vectors`, `LinearSolve`, `NormalEquations`, `Mat3`, `Projection`,
  `JacobiEigen`, `PoseModel`, `PoseSolver`, `PhotoQuad`, with `Reals` for arithmetic):
  Gauss-Jordan elimination with partial pivoting, the rank test, the normal equations,
  damping, the Levenberg-Marquardt loop, the candidate selection, the Jacobi eigen-solver, the
  pinhole projection, the photo quad and the viewer matrix. Numbers are exact reals; a sine
  and cosine is any pair on the unit circle. The 6 of the linear algebra is any n.
- **Scene commands** (`SceneModel`, `SceneLaws`, `SceneWrites`, `SceneObjects`, `AgentTools`): `apply_command`
  on values, the same machine in place over a deep copy, and the commands an agent can issue.
- **Save protocols** (`NotesModel`, `NotesLaws`, `NotesPersister`, `PlanSaveModel`,
  `PlanSaveLaws`, `PlanSaveProgress`, `PlanEditor`): each piece of code that runs without interruption between two
  awaits is one event; the laws hold for all interleavings, and classes carry the closure
  variables and refs and refine the events.
- **Lightbox** (`Lightbox`), **variant lineage** (`Lineage`), **money texts** (`Money`) and
  **archive extraction** (`Bundle`).

## What the proofs found

- A notes edit queued during a PATCH is lost when `dispose` runs after that PATCH has succeeded
  and before `run` continues, although the comment of `dispose` says that nothing could deliver
  it (`NotesLaws.DisposeInGapDrops`; exactly when: `NotesLaws.DisposeCutsOffIff`). Only another
  promise continuation can run in that gap, and the page's own flush followed by dispose never
  loses an edit (`NotesLaws.UnmountDelivers`).
- The comparison after the last pass of `flushPendingSave` repeats a test that has just failed
  (`PlanEditorObject.PlanEditor.FlushTurn`).
- The commit guarantee rests on adopted answers being current on adoption, which they always are
  in an editor that holds no draft (`PlanSaveLaws.FirstAdoptionCommitsWhatIsShown`). A second
  answer overtaken by an autosave would break it
  (`PlanSaveLaws.StaleAnswerCommitsAnotherPlan`). The code takes a second one only if the answer
  of the analysis effect arrives before the re-render that cancels it, since that effect resets
  its own dependency; nothing in the save functions themselves checks for it.
- A failed extraction leaves the destination it made when the exception is neither a
  `BundleError`, a `TarError` nor an `OSError`: a truncated gzip stream, or a NUL in a member name
  (`Bundle.TruncatedArchiveKeepsDestination`, `Bundle.NulNameKeepsDestination`; exactly when:
  `Bundle.MadeDestinationIsGoneIff`).
- A failed extraction into a directory that existed removes files of the same name as streamed
  members, contrary to the docstring of `_cleanup_partial` (`Bundle.OverwrittenFileIsLost`;
  exactly when: `Bundle.FileIsLostIff`).
- The money round trip depends on the currency text after its white space is removed, so a
  currency such as " 5" breaks it too (`Money.RoundTripIff`).
- The mid-loop `return None` of the Levenberg-Marquardt loop cannot be reached
  (`PoseSolver.LevenbergMarquardt`).

## Model

| member | source | states |
|---|---|---|
| LinearSolve.SolveLinear | src/stroy/camera/solve.py:336-354 | A returned x satisfies M x = b and is the only solution; a refusal comes with a direction (one entry 1) that every row of the original matrix sends below 1e-18. Any size n. |
| LinearSolve.IsSingular | src/stroy/camera/solve.py:316-333 | False only if M y = 0 forces y = 0; True only for the zero matrix or one with a direction every row sends below 1e-9 times the largest entry. |
| LinearSolve.PivotRow | src/stroy/camera/solve.py:339 | The pivot row is the first row, from the diagonal down, that attains the largest absolute entry of the column. |
| LinearSolve.ClearColumn | src/stroy/camera/solve.py:343-353 | Scaling the pivot row and clearing its column is one row operation per row, and leaves a unit pivot behind zeros. |
| LinearSolve.ClearBelow | src/stroy/camera/solve.py:326-332 | Clearing below the pivot is one row operation per row and extends the triangular part. |
| LinearSolve.LargestEntry | src/stroy/camera/solve.py:318 | The scale is an upper bound of all absolute entries and is attained (0 for no entries). |
| LinearSolve.SwapKeepsElimination | src/stroy/camera/solve.py:342 | Swapping two open rows keeps both the solution set and the record of which original row each row came from. |
| LinearSolve.PivotStepKeepsElimination | src/stroy/camera/solve.py:343-353 | A pivot step keeps the solution set, and a vector that kills the finished rows still gives every open row the value of its original row. |
| LinearSolve.PivotStepReduces | src/stroy/camera/solve.py:343-353 | A pivot step extends the identity block by one column. |
| LinearSolve.ReadOffSolves | src/stroy/camera/solve.py:354 | When the left block is the identity, the last column solves the original system. |
| LinearSolve.ReadOffUnique | src/stroy/camera/solve.py:354 | ... and every other solution of the original system equals it. |
| LinearSolve.RefusalCertificate | src/stroy/camera/solve.py:340-341 | With no usable pivot in a column, the reduced column gives a direction the original matrix all but annihilates. |
| LinearSolve.TriangularKernel | src/stroy/camera/solve.py:316-333 | A triangular matrix with usable pivots annihilates only the zero vector. |
| NormalEquations.Assemble | src/stroy/camera/solve.py:296-313 | The nested accumulation and the mirroring compute exactly J^T J and J^T r, entry by entry. |
| NormalEquations.Mirror | src/stroy/camera/solve.py:310-312 | The lower triangle becomes the mirror image of the upper one, which is unchanged. |
| NormalEquations.GramQuadratic | src/stroy/camera/solve.py:302-309 | x^T (J^T J) x is the squared length of J x, for every x and any number of rows. |
| NormalEquations.AssembledIsSemidefinite | src/stroy/camera/solve.py:296-313 | The assembled matrix is symmetric and x^T M x is the squared length of J x, never negative. |
| NormalEquations.Damp | src/stroy/camera/solve.py:357-362 | Only the diagonal changes, by damping times the larger of its absolute value and 1e-12. |
| NormalEquations.DampingIsRelative | src/stroy/camera/solve.py:357-362 | A diagonal entry above 1e-12 is multiplied by 1 + damping, a smaller one raised as if it were 1e-12, no other entry changes. |
| NormalEquations.DampedIsDefinite | src/stroy/camera/solve.py:357-362 | Positive damping makes the assembled matrix positive definite. |
| NormalEquations.StepDescends | src/stroy/camera/solve.py:397-404 | A step solving the damped equations is zero iff the gradient is, and otherwise satisfies gradient . step < 0. |
| NormalEquations.LinearisedCostExpands | src/stroy/camera/solve.py:296-313 | The squared length of J x + r is x^T (J^T J) x + 2 (J^T r) . x + the squared length of r, so the gradient assembled is that of the linearised cost. |
| NormalEquations.StepLowersLinearisedCost | src/stroy/camera/solve.py:397-404 | A step solving the damped equations lowers the linearised cost, strictly, unless the gradient is zero. |
| Projection.RotationOrthonormal | src/stroy/camera/projection.py:18-27 | Z (Y X) is orthonormal, from cos^2 + sin^2 = 1 alone. |
| Projection.RotationProper | src/stroy/camera/projection.py:18-27 | Its determinant is 1: the camera never mirrors the scene. |
| Projection.PosingTurnsThenMoves | src/stroy/camera/projection.py:18-51 | Posing turns the point by the first angle about x, by the second about y, by the third about z, in this order, and then moves it. |
| Projection.RotationEntries | src/stroy/camera/projection.py:18-27 | Every entry of the rotation in sines and cosines of the three angles, among them those the Euler decomposition reads the angles from. |
| Projection.PosingInverts | src/stroy/camera/projection.py:41-77 | Local-to-world and world-to-camera are mutually inverse for every pose. |
| Projection.ProjectPosed | src/stroy/camera/projection.py:41-77 | Projecting a posed point gives the plain pinhole image of the local point, the behind-camera case included. |
| Projection.ProjectionBijective | src/stroy/camera/projection.py:54-77 | A pixel with a positive depth is the image of exactly one world point. |
| Projection.CameraResidual | src/stroy/camera/projection.py:80-98 | None iff no observation is in front; otherwise the nonnegative root of the mean squared error over the observations in front. |
| PhotoQuad.QuadFitsPhoto | apps/web/src/photoContext.ts:56-68 | Every point (s, t) of the quad projects to the pixel (s w, (1 - t) h) at the quad depth, for all positive fx, fy and depth. |
| PhotoQuad.QuadCornersFitPhoto | apps/web/src/photoContext.ts:56-68 | The four corners, posed anywhere, project to (0 or width, 0 or height). |
| PhotoQuad.QuadIsVisibleSection | apps/web/src/photoContext.ts:56-68 | A point at that depth lies on the quad iff its pixel lies in the photo. |
| PhotoQuad.ViewerAgreesWithProjection | apps/web/src/SceneViewer.tsx:397-425 | The viewer matrix gives NDC (2u/w - 1, 1 - 2v/h) of the projected pixel, and depth NDC in [-1, 1] iff the depth is between near and far. |
| PhotoQuad.PinholeScaleFree | src/stroy/camera/projection.py:54-77 | Points on one ray from the camera share their pixel. |
| JacobiEigen.RotationKeepsSimilarity | src/stroy/camera/solve.py:547-584 | One (p, q) rotation keeps V orthonormal and V^T M V = W. |
| JacobiEigen.SimilarityInvariants | src/stroy/camera/solve.py:547-584 | Hence trace, Frobenius norm and symmetry of M survive every sweep. |
| JacobiEigen.RotationShrinksOffDiagonal | src/stroy/camera/solve.py:547-584 | A rotation at the chosen angle lowers the off-diagonal mass by exactly the square of the entry it removes. |
| JacobiEigen.TurnColumns | src/stroy/camera/solve.py:547-584 | The column loop is multiplication by the plane rotation from the right. |
| JacobiEigen.TurnRows | src/stroy/camera/solve.py:547-584 | The row loop is multiplication by its transpose from the left. |
| JacobiEigen.Eliminate | src/stroy/camera/solve.py:558-579 | An entry that is not negligible is turned to zero, and the off-diagonal mass falls by exactly its square; nothing else is touched when it is negligible. |
| JacobiEigen.Sweep | src/stroy/camera/solve.py:556-579 | A sweep lowers the off-diagonal mass by at least the square of the threshold, or has found every entry negligible. |
| JacobiEigen.Eigen | src/stroy/camera/solve.py:547-584 | The returned vectors are orthonormal, the values are the diagonal of V^T M V, every sweep lowered the off-diagonal mass by at least the square of the threshold, and fewer than 100 sweeps mean convergence. |
| JacobiEigen.EigenResidual | src/stroy/camera/solve.py:547-584 | The squared length of M v - lambda v equals the squared rest of that column of V^T M V. |
| JacobiEigen.ConvergedEigenpairs | src/stroy/camera/solve.py:547-584 | After the convergence exit every pair is a unit vector with squared residual below the squared threshold. |
| PoseModel.Residuals | src/stroy/camera/solve.py:185-201 | None iff some observation is behind the camera; otherwise all u and v residuals in order. |
| PoseModel.JacobianTerms | src/stroy/camera/solve.py:216-288 | None iff some depth is not positive - the same condition as for the residuals; otherwise one (du, dv) per observation. |
| PoseModel.CostIsTotalError | src/stroy/camera/solve.py:376 | The cost is the total squared error the validator computes. |
| PoseModel.TranslationColumnsExact | src/stroy/camera/solve.py:268-286 | For every step h along a translation axis, (u(h) - u(0)) depth(h) = h du depth(0), and likewise v: the analytic columns are the exact secants of the projection. |
| PoseModel.RotationColumnsAreCentralDifferences | src/stroy/camera/solve.py:236-276 | The rotation columns are the central differences of the camera point itself. |
| PoseModel.RotationEntriesAreCentralSlopes | src/stroy/camera/solve.py:236-286 | The rotation entries of du and dv: 2 step du depth^2 = fx (dx depth + x dz) for the change of the camera point under a turn by plus and minus the step, and dv likewise with -fy and y. |
| PoseModel.ResidualsFollowTerms | src/stroy/camera/solve.py:185-288 | When the camera moves by h along an axis, residuals 2i and 2i + 1 follow that entry of the u and v rows of term i, by the exact secant. |
| PoseSolver.LowerCostDescends | src/stroy/camera/solve.py:395-418 | An accepted trial comes from a strict descent direction; the gradient was not zero. |
| PoseSolver.Trial | src/stroy/camera/solve.py:397-419 | A trial is kept iff it is a descent; otherwise the damped equations were refused, a point fell behind, or the cost did not fall. |
| PoseSolver.TryStep | src/stroy/camera/solve.py:395-419 | The first of 24 tenfold dampings that works is taken and damping stays positive; failure means all 24 failed. |
| PoseSolver.EscalatedIsTenfold | src/stroy/camera/solve.py:402-419 | After k failures the damping is ten to the k times what it was. |
| PoseSolver.RelaxedMeans | src/stroy/camera/solve.py:416 | After a success the damping is three tenths of what it was, at least 1e-12. |
| PoseSolver.LevenbergMarquardt | src/stroy/camera/solve.py:365-425 | Cost and residuals always belong to the current pose, the visited poses form a descent path, iterations <= 200, the result costs strictly less than the start unless it is the start, every iteration but the last is one accepted move away from a pose with a regular normal matrix, the mid-loop None is unreachable, and the stop is explained: tolerance, limit, stall, or a degenerate normal matrix. |
| PoseSolver.PathCostsFall | src/stroy/camera/solve.py:412-418 | Along the path costs strictly decrease, so the last pose is the best seen. |
| PoseSolver.ToleranceTestsCoincide | src/stroy/camera/solve.py:377-384 | The loop test on the cost and the final test on the rms are the same test. |
| PoseSolver.SolveCameraPose | src/stroy/camera/solve.py:104-140 | Ok iff there are three observations and some candidate is fitted within tolerance; it is then the first candidate of least residual. A supplied pose that fits as it is always succeeds. Each error has its exact reason. |
| PoseSolver.SuppliedPoseComesFirst | src/stroy/camera/solve.py:96-102 | The supplied pose is the first candidate, without loss through the parameters, before all heuristic ones. |
| PoseSolver.ValidatorAgrees | src/stroy/camera/projection.py:80-98 | The squared validator residual of a solved pose is exactly twice the squared solver residual. |
| PoseSolver.SolveAndValidate | src/stroy/services/cameras.py:38-53 | A solved pose always validates, and the stored residual squared is twice the solver residual squared. |
| SceneModel.Find | src/stroy/domain/commands.py:23-27 | Finds an entity of that id iff there is one. |
| SceneLaws.SpliceFrame | src/stroy/domain/commands.py:73-106 | An edit changes no entity of another id. |
| SceneLaws.SpliceHit | src/stroy/domain/commands.py:73-106 | After an edit the named entity is what the edit says, after a removal it is gone. |
| SceneLaws.SplicesCommute | src/stroy/domain/commands.py:73-106 | Edits of different entities commute, list order included. |
| SceneLaws.OpOf | src/stroy/domain/commands.py:30-195 | Every accepted command, the envelope included, is one append or one edit of an entity of its footprint. |
| SceneLaws.FootprintDecides | src/stroy/domain/commands.py:23-193 | Acceptance, error and effect depend only on the entities in the footprint. |
| SceneLaws.ApplyFrame | src/stroy/domain/commands.py:30-193 | Entities outside the footprint are untouched. |
| SceneLaws.DisjointCommandsCommute | src/stroy/domain/commands.py:23-193 | Commands with disjoint footprints are accepted alike in either order and end in equal scenes, up to order when both add. |
| SceneLaws.ApplyKeepsUniqueIds | src/stroy/domain/commands.py:34-48 | Every accepted command keeps ids pairwise distinct. |
| SceneLaws.RunKeepsUniqueIds | src/stroy/domain/commands.py:30-195 | So does every run of commands. |
| SceneLaws.RunStep | src/stroy/domain/commands.py:30-195 | A run applies its commands one after the other; a rejected one changes nothing. |
| SceneLaws.EffectKeepsCompatible | src/stroy/domain/commands.py:52-71 | No edit makes a structure entity one to remove or replace. |
| SceneLaws.ApplyKeepsCompatible | src/stroy/domain/commands.py:34-141 | A compatible scene stays compatible iff the added payload, if any, is. |
| SceneLaws.RunKeepsCompatible | src/stroy/domain/commands.py:34-141 | Over every run, given compatible payloads. |
| SceneLaws.StatelessAdditionsCompatible | src/stroy/domain/commands.py:43-46 | An object added without a state becomes a design object and is compatible whatever its intent. |
| SceneLaws.AcceptIsItsChange | src/stroy/domain/commands.py:168-193 | On an existing wrapper target with a deviation id the envelope equals its non-accept change; in every other case it is rejected. |
| SceneLaws.AcceptedRemovalIsFinal | src/stroy/domain/commands.py:168-193 | An envelope that removed its own wrapper target is rejected the second time. |
| SceneWrites.SetStateWrites | src/stroy/domain/commands.py:52-71 | Accepted iff the value is one of the three names and does not make a structure of something to remove or replace; then the state has that name, and nothing else changes. |
| SceneWrites.SetIntentWrites | src/stroy/domain/commands.py:120-141 | Accepted iff absent or null, keep, or remove or replace on something that is no structure; then the intent has that name, and nothing else changes. |
| SceneWrites.SetMaterialWrites | src/stroy/domain/commands.py:73-86 | Accepted iff the material is unlocked and the reference a non-empty text; only the reference changes, to it. |
| SceneWrites.SetColorWrites | src/stroy/domain/commands.py:73-86 | Accepted iff the material is unlocked and the color a non-empty text; only that metadata entry changes, to it. |
| SceneWrites.MoveWrites | src/stroy/domain/commands.py:88-96 | Accepted iff neither lock on the place is set and the given fields are vectors; each of translation, rotation and scale becomes what is given for it, or stays. |
| SceneWrites.RemoveWrites | src/stroy/domain/commands.py:98-106 | Accepted iff neither existence nor geometry is locked and the intent is not keep; the entity is then gone. |
| SceneWrites.ReplaceWrites | src/stroy/domain/commands.py:108-118 | Accepted iff neither existence nor geometry is locked, the intent is absent or replace, and there is a reference; only that metadata entry changes, to the first one. |
| SceneWrites.SetLightIntentWrites | src/stroy/domain/commands.py:159-166 | Accepted iff the intent is truthy; only the light intent, and the temperature if given, change, to what is given. |
| SceneWrites.AddWrites | src/stroy/domain/commands.py:34-48 | Accepted iff the payload is an entity with the target id and the id is free; it is appended as it is, or as a design object if it names no state. |
| SceneWrites.MergeFollowsItems | src/stroy/domain/commands.py:149-156 | Merging is refused iff some key is unknown or some value no boolean; otherwise each flag has the last value given for its own key, or stays. |
| SceneWrites.SetLocksWrites | src/stroy/domain/commands.py:143-157 | The same through the command: refused exactly then or when the locks are no dict, and nothing but the four flags changes. |
| SceneWrites.EditLands | src/stroy/domain/commands.py:50-166 | An accepted edit replaces the named entity and leaves every other id as it was. |
| SceneObjects.Scene.DeepCopy | src/stroy/domain/commands.py:31 | A fresh scene of fresh, pairwise distinct entity objects with the same values. |
| SceneObjects.Scene.Lookup | src/stroy/domain/commands.py:23-27 | Returns the object of the first entity with that id. |
| SceneObjects.Update | src/stroy/domain/commands.py:52-166 | The in-place update leaves the target as the value-level effect says, or unchanged with its error. |
| SceneObjects.MergedLocks | src/stroy/domain/commands.py:149-156 | The flag loop stops at the first bad item; otherwise each flag has the last value given for its own key, or stays. |
| SceneObjects.EditInPlace | src/stroy/domain/commands.py:50-166 | Editing one object of the copied list refines the value-level edit of the whole scene. |
| SceneObjects.AddInPlace | src/stroy/domain/commands.py:34-48 | The append refines the value-level append, conflict included. |
| SceneObjects.ApplyCommand | src/stroy/domain/commands.py:30-195 | The in-place machine returns a fresh scene equal to the value-level result, or its error, and leaves the argument alone; for the accept envelope too, with its second deep copy. |
| AgentTools.AgentOperations | src/stroy/agent/tools.py:250-286 | No agent command sets intent or locks or is an envelope; it carries the agent origin and exactly its non-null arguments. |
| AgentTools.ToolsKeepTheirNames | src/stroy/agent/tools.py:368-398 | A tool becomes the operation of the same name. |
| AgentTools.CommandCarriesCall | src/stroy/agent/tools.py:380-398 | The command has the target of the call, its reference if it replaces, and every other argument that is given and not null. |
| AgentTools.AcceptedCalls | src/stroy/agent/tools.py:52-91 | Each mutation tool takes exactly its own fields, well-typed. |
| AgentTools.AgentRunStep | src/stroy/agent/tools.py:368-398 | A run of calls applies the accepted commands one after the other; every other call changes nothing. |
| AgentTools.AgentStepKeepsProtection | src/stroy/agent/tools.py:368-398 | One agent command keeps a pinned entity, its locks, intent and whatever the locks freeze. |
| AgentTools.AgentRunKeepsProtection | src/stroy/domain/commands.py:73-118 | Over any run of agent calls a pinned entity survives with locks and intent; transform, material and color stay where locked. |
| AgentTools.RemovableIffNotPinned | src/stroy/domain/commands.py:98-106 | An agent can remove an entity iff the owner has not pinned it. |
| AgentTools.MovableIffUnlocked | src/stroy/domain/commands.py:88-96 | An agent can move an entity iff neither the transform nor the geometry is locked. |
| AgentTools.PaintableIffUnlocked | src/stroy/domain/commands.py:73-86 | An agent can change the material iff it is not locked. |
| AgentTools.ColorableIffUnlocked | src/stroy/domain/commands.py:73-86 | An agent color call colors the entity iff its material is unlocked, and changes nothing else. |
| AgentTools.StateCallWrites | src/stroy/domain/commands.py:52-71 | An agent state call sets the state unless that would make a structure of something to remove or replace, and changes nothing else. |
| AgentTools.LightCallWrites | src/stroy/domain/commands.py:159-166 | An agent light call writes the intent and the temperature, and changes nothing else. |
| NotesLaws.NextKeepsInv | apps/web/src/briefView.ts:322-382 | Every event of the persister keeps the protocol invariant. |
| NotesLaws.RunKeepsInv | apps/web/src/briefView.ts:322-382 | So does every interleaving of schedule, timer, flush, dispose and settlements. |
| NotesLaws.AtMostOnePatch | apps/web/src/briefView.ts:334-348 | At most one PATCH is in flight in every reachable state. |
| NotesLaws.SentIsSubsequence | apps/web/src/briefView.ts:334-358 | The values sent are a subsequence of the values scheduled, in order, each at most once. |
| NotesLaws.NeverStranded | apps/web/src/briefView.ts:334-373 | A pending edit always has a timer, a PATCH or continuation, or a flush behind it, unless the last PATCH was rejected. |
| NotesLaws.FlushDrains | apps/web/src/briefView.ts:359-373 | When flush returns, nothing is pending or in flight and the newest edit was handed to patch, unless a dispose dropped it. |
| NotesLaws.DisposeDropsIff | apps/web/src/briefView.ts:374-380 | After dispose the pending edit can still reach patch iff a PATCH was in flight; otherwise no later call or event ever sends it. |
| NotesLaws.GoneForGood | apps/web/src/briefView.ts:334-380 | An edit neither sent nor pending is never sent again, over every run. |
| NotesLaws.Progress | apps/web/src/briefView.ts:322-382 | Unless everything is at rest some internal step is enabled. |
| NotesLaws.InternalUsesWork | apps/web/src/briefView.ts:322-382 | Every internal step lowers a measure: drains and follow-ups end. |
| NotesLaws.NewestIsDelivered | apps/web/src/briefView.ts:334-373 | With no further calls and no rejection to come, every order of the remaining steps is finite and ends with the newest edit as the last value handed to patch, unless a dispose dropped it or an earlier rejection left it without a timer. |
| NotesLaws.RejectionSparesLaterEdits | apps/web/src/briefView.ts:338-358 | An edit made during a PATCH that is then rejected is still delivered by its timer. |
| NotesLaws.NextEditIsDelivered | apps/web/src/briefView.ts:351-358 | After anything that went before, the next edit is delivered. |
| NotesLaws.TimerIsHandled | apps/web/src/briefView.ts:351-380 | schedule arms the timer; its callback, flush and dispose disarm it; settlements and continuations leave it alone. |
| NotesLaws.FlushWaitsFor | apps/web/src/briefView.ts:366-372 | A flush that sent the PATCH goes on only after its run has; one that found it in flight as soon as it has settled. |
| NotesLaws.DisposeInFlightDelivers | apps/web/src/briefView.ts:374-380 | After dispose during a PATCH that succeeds, every order of the remaining steps delivers the newest edit. |
| NotesLaws.UnmountDelivers | apps/web/src/pages/BriefPage.tsx:147-153 | flush followed at once by dispose, from every reachable state, drops nothing: every order of the remaining steps delivers the newest edit. |
| NotesLaws.DisposeInGapDrops | apps/web/src/briefView.ts:338-380 | A run in which dispose, after the PATCH settled and before its continuation, drops a queued edit the continuation would have sent. |
| NotesLaws.DisposeCutsOffIff | apps/web/src/briefView.ts:374-380 | With no PATCH in flight, some run of continuations alone would send the pending edit - which dispose assumes impossible - iff a successful run has yet to continue or a flush has yet to look again after one. |
| NotesPersisterObject.NotesPersister.Run | apps/web/src/briefView.ts:334-345 | In place, over the closure variables: refines the transition for run up to its first await. |
| NotesPersisterObject.NotesPersister.Schedule | apps/web/src/briefView.ts:351-358 | In place, over the closure variables: refines the transition for schedule. |
| NotesPersisterObject.NotesPersister.TimerFires | apps/web/src/briefView.ts:354-357 | In place, over the closure variables: refines the transition for the timer callback. |
| NotesPersisterObject.NotesPersister.PatchSettles | apps/web/src/briefView.ts:338-344 | In place, over the closure variables: refines the transition for the settlement of the PATCH. |
| NotesPersisterObject.NotesPersister.RunResumes | apps/web/src/briefView.ts:345-347 | In place, over the closure variables: refines the transition for the continuation of run. |
| NotesPersisterObject.NotesPersister.DrainStep | apps/web/src/briefView.ts:366-372 | In place, over the closure variables: refines the transition for one test of the drain loop. |
| NotesPersisterObject.NotesPersister.Dispose | apps/web/src/briefView.ts:374-380 | In place, over the closure variables: refines the transition for dispose. |
| NotesPersisterObject.NotesPersister.Flush | apps/web/src/briefView.ts:359-373 | In place; when it returns at once, nothing is pending or in flight and the newest edit was handed over. |
| NotesPersisterObject.NotesPersister.FlushResumes | apps/web/src/briefView.ts:366-372 | The same for a flush that returns after waiting; a rejection makes it throw. |
| PlanSaveLaws.NextKeepsInv | apps/web/src/PlanEditor.tsx:666-781 | Every event of the save protocol keeps its invariant. |
| PlanSaveLaws.RunKeepsInv | apps/web/src/PlanEditor.tsx:666-781 | So does every run. |
| PlanSaveLaws.AtMostOnePut | apps/web/src/PlanEditor.tsx:666-706 | At most one draft PUT is in flight with any number of waiting callers. |
| PlanSaveLaws.BaselineMatchesServer | apps/web/src/PlanEditor.tsx:258-266 | Whenever no PUT is in flight, the baseline is the server copy if every adopted answer was current on adoption; over all runs, iff it was last moved by a successful PUT or by an answer given for that copy. |
| PlanSaveLaws.FlushMeansSaved | apps/web/src/PlanEditor.tsx:708-721 | flushPendingSave returns true only with no PUT in flight, and the server copy is then the local draft if every adopted answer was current on adoption. |
| PlanSaveLaws.CommitSentForServerCopy | apps/web/src/PlanEditor.tsx:741-758 | When the commit is sent, within four passes, no PUT is in flight and the server copy is the local draft if every adopted answer was current on adoption; over all runs, iff the baseline is not out of date. |
| PlanSaveLaws.FirstAdoptionsAreFresh | apps/web/src/PlanEditor.tsx:268-281 | An answer adopted by an editor that holds no draft is always current. |
| PlanSaveLaws.FirstAdoptionCommitsWhatIsShown | apps/web/src/PlanEditor.tsx:741-758 | If answers are adopted only into an empty editor, the server copy is the local draft whenever a commit is sent, and every commit builds the plan then shown. |
| PlanSaveLaws.CommitHoldsServer | apps/web/src/PlanEditor.tsx:741-758 | While a commit is under way no PUT changes the server copy, over every run. |
| PlanSaveLaws.CommitBuildsTheFlushedPlan | apps/web/src/PlanEditor.tsx:741-758 | However long the commit takes and whatever is edited or delivered meanwhile, the scene is built from the server copy of the moment it was sent, which is the plan then shown if every adopted answer was current on adoption, and iff the baseline is not out of date. |
| PlanSaveLaws.RunTracks | apps/web/src/PlanEditor.tsx:258-266 | Over every run, an account kept from the events alone names the server copy that the baseline is. |
| PlanSaveLaws.StaleAnswerCommitsAnotherPlan | apps/web/src/PlanEditor.tsx:341-365 | The guard is needed: in a run where a second answer, overtaken by an autosave, is adopted over a draft, the flush succeeds and the commit builds another plan than the one shown. The code can take two answers only if that of the analysis effect arrives before the re-render that cancels it. |
| PlanSaveProgress.Progress | apps/web/src/PlanEditor.tsx:666-781 | Unless every call has returned and no PUT is in flight, some internal step is enabled: nobody waits for nothing. |
| PlanSaveProgress.InternalUsesWork | apps/web/src/PlanEditor.tsx:666-721 | Every continuation and every answer, good or bad, lowers a measure. |
| PlanSaveProgress.EveryCallEnds | apps/web/src/PlanEditor.tsx:666-781 | From every reachable state, with no further calls and edits and whatever fails, every order of the remaining steps is finite and can stop only once every call has returned. |
| PlanSaveProgress.SaveMeansSaved | apps/web/src/PlanEditor.tsx:666-728 | A manual save or autosave that has returned, with none of its own PUTs failed: a draft shown since the call became the baseline with no PUT in flight; if the draft was not changed, that draft, and the server holds it when adopted answers were current. |
| PlanSaveProgress.WastedNeedsChange | apps/web/src/PlanEditor.tsx:708-721 | A flush pass whose save was accepted ends dirty only if the draft was changed during it. |
| PlanSaveProgress.BuildGivesUpOnlyIf | apps/web/src/PlanEditor.tsx:711-757 | A build that has ended without a successful flush saw one of its own PUTs fail, or ended each of its four passes dirty again, with at least four changes of the draft meanwhile. |
| PlanEditorObject.PlanEditor.UpdateDraft | apps/web/src/PlanEditor.tsx:411-424 | In place, over the refs: refines the transition for updateDraft. |
| PlanEditorObject.PlanEditor.AdoptDraft | apps/web/src/PlanEditor.tsx:258-266 | In place, over the refs: refines the transition for adoptDraft of an answer of any age. |
| PlanEditorObject.PlanEditor.PersistDraft | apps/web/src/PlanEditor.tsx:666-706 | In place, over the refs: refines the transition for persistDraft up to its next await. |
| PlanEditorObject.PlanEditor.PutAnswers | apps/web/src/PlanEditor.tsx:677-704 | In place, over the refs: refines the transition for the answer of the PUT. |
| PlanEditorObject.PlanEditor.FlushTurn | apps/web/src/PlanEditor.tsx:711-721 | In place, over the refs: refines the transition for one pass of flushPendingSave; its check after the last pass can only fail. |
| PlanEditorObject.PlanEditor.Begin | apps/web/src/PlanEditor.tsx:723-750 | In place, over the refs: refines the transition for the entry of an autosave, saveDraft or build3d. |
| PlanEditorObject.PlanEditor.CommitAnswers | apps/web/src/PlanEditor.tsx:758-780 | In place, over the refs: refines the transition for the end of build3d. |
| PlanEditorObject.PlanEditor.ServerAnswers | apps/web/src/PlanEditor.tsx:271-272 | In place, over the refs: refines the transition for the answer to a GET. |
| PlanEditorObject.PlanEditor.ServerStores | apps/web/src/PlanEditor.tsx:679 | In place, over the refs: refines the transition for the server storing a PUT. |
| PlanEditorObject.PlanEditor.ServerBuilds | apps/web/src/PlanEditor.tsx:758 | In place, over the refs: refines the transition for the server building the scene. |
| PlanEditorObject.PlanEditor.Continue | apps/web/src/PlanEditor.tsx:666-781 | A due continuation, in place; when it sends the commit, no PUT is in flight and the server holds the draft shown iff the baseline is not out of date. |
| Lightbox.FitIsLargestContained | apps/web/src/imagePreview.ts:65-83 | The fitted image touches the viewport on an axis, is contained in it, and no larger scaling is. |
| Lightbox.ClampPanWithin | apps/web/src/imagePreview.ts:141-152 | Clamping lands in the bounds and moves exactly the pans outside them. |
| Lightbox.ClampPanNearest | apps/web/src/imagePreview.ts:141-152 | Clamping goes to the nearest allowed pan on each axis. |
| Lightbox.AllowedIffCovered | apps/web/src/imagePreview.ts:119-138 | The bounds are exact: a pan is allowed iff the image covers the viewport or is centred, axis by axis. |
| Lightbox.ShownIsFitTimesZoom | apps/web/src/imagePreview.ts:98-110 | What is shown is the fitted image times the zoom. |
| Lightbox.FitFallsBack | apps/web/src/imagePreview.ts:65-73 | An invalid image or empty viewport gives scale 1 and size zero. |
| Lightbox.PanMoves | apps/web/src/imagePreview.ts:230-251 | Each pan command moves the image 48 to its side, as far as the edge allows, and leaves the zoom and the other axis alone. |
| Lightbox.ResetRestarts | apps/web/src/imagePreview.ts:211-213 | From anywhere reset and fit give the initial state, and all later commands act as from it. |
| Lightbox.BadZoomIsOne | apps/web/src/imagePreview.ts:203-204 | A zoom that is not positive counts as 1. |
| Lightbox.ReduceKeepsGood | apps/web/src/imagePreview.ts:197-255 | Every command keeps zoom in [1, 4] and pan within the bounds of that zoom. |
| Lightbox.RunKeepsGood | apps/web/src/imagePreview.ts:197-255 | So does every command sequence. |
| Lightbox.ReachableCovers | apps/web/src/imagePreview.ts:119-152 | In every reachable state, on each axis, the image covers the viewport or is exactly centred. |
| Lightbox.CentreZoomInUnclamped | apps/web/src/imagePreview.ts:160-194 | Zooming in about the centre never needs clamping. |
| Lightbox.ZoomInThenOut | apps/web/src/imagePreview.ts:214-229 | Zoom-out undoes zoom-in exactly iff 1.25 zoom <= 4 (and the viewport is usable or the pan was zero). |
| Lightbox.FocalPointFixedIffUnclamped | apps/web/src/imagePreview.ts:160-194 | A focal zoom leaves the image point under the focus fixed iff the pan this takes is within the bounds of the new zoom. |
| Lineage.LineageRevisions | apps/web/src/sceneVariants.ts:246-266 | On any parent graph the walk ends; the chain starts at head, follows parent links through present rows, repeats no id, has not passed base, stops for one of the four reasons, and is no longer than the number of distinct ids. |
| Lineage.LastRowWins | apps/web/src/sceneVariants.ts:253 | Of several rows with one id the last is the one walked. |
| Lineage.LineageUnique | apps/web/src/sceneVariants.ts:246-266 | There is only one such chain. |
| Lineage.PathIsLineage | apps/web/src/sceneVariants.ts:246-266 | A path from head to its first base with every row present repeats no id, so the guard never cuts it. |
| Lineage.LineageIsThePath | apps/web/src/sceneVariants.ts:246-266 | Whenever such a path exists the result is exactly it, and the result ends at base only then. |
| Money.GroupedIsTriples | apps/web/src/sceneVariants.ts:171 | Inserting a space at every match of the lookahead yields groups of exactly three digits after the first. |
| Money.ParseFailsIff | apps/web/src/productImport.ts:55-62 | The parse is null iff the text holds no digit. |
| Money.ReadsFirstNumber | apps/web/src/productImport.ts:55-62 | The parse gives the first number of the text, its sign and decimals included, whatever noise is around it. |
| Money.AddsDecimalsIff | apps/web/src/productImport.ts:58 | What follows an amount adds decimals to it iff it is a separator and digits of which one is not zero. |
| Money.FormattedStripped | apps/web/src/sceneVariants.ts:168-176 | Without white space the text is sign, integer digits, decimals and unit. |
| Money.RoundTrip | apps/web/src/productImport.ts:55-62 | Parsing a printed amount gives it rounded to cents, sign included, unless the currency text clashes. |
| Money.RoundTripIff | apps/web/src/sceneVariants.ts:168-176 | The round trip holds for every amount iff the currency, white space removed, starts with neither a digit nor a separator and a nonzero fraction. |
| Money.RoundedIsNearest | apps/web/src/sceneVariants.ts:170 | The printed amount is a nearest whole number of cents; whole cents are printed exactly. |
| Money.FormatIsInjective | apps/web/src/sceneVariants.ts:168-176 | Amounts printed alike are equal to the cent. |
| Bundle.AcceptedNameStaysInside | scripts/deploy/bundle_utils.py:93-100 | Walking the components of an accepted name, as the system would, ends at the computed target, inside the destination. |
| Bundle.AcceptedIff | scripts/deploy/bundle_utils.py:93-100 | Accepted iff not empty, not starting with a slash, without backslash, and with no piece between slashes equal to two dots. |
| Bundle.SplitIsAtSlashes | scripts/deploy/bundle_utils.py:97-99 | The pieces hold no slash and joined by slashes give the name. |
| Bundle.ValidateMembers | scripts/deploy/bundle_utils.py:103-116 | Passes iff every member is acceptable; a failure names the reason of the first that is not. |
| Bundle.FileSystem.CopyMember | scripts/deploy/bundle_utils.py:174-191 | The chunk loop succeeds iff the whole content reads and fits both caps, and lets an exception escape iff one of a class that is not caught comes before a cap bursts, whatever the chunking; both caps hold at every moment. |
| Bundle.FileSystem.ExtractMember | scripts/deploy/bundle_utils.py:154-191 | One member: success, recording and escape each iff a condition on member, disk and caps; a BundleError has a reason backed by the contents. |
| Bundle.FileSystem.StreamExtract | scripts/deploy/bundle_utils.py:139-191 | Success iff all members fit in order; the recorded list, the escaping exception and the disk it leaves are functions of disk, members and caps; at every moment the caps hold and only paths under the destination are written. |
| Bundle.FileSystem.CleanupPartial | scripts/deploy/bundle_utils.py:119-136 | Refines the pruning of a created destination, or the undoing of the recorded paths from last to first. |
| Bundle.RemovedMeans | scripts/deploy/bundle_utils.py:129-136 | One cleanup step: a file goes; a directory goes iff it is not the root and nothing is left in it; all else stays. |
| Bundle.FileSystem.ExtractSafe | scripts/deploy/bundle_utils.py:194-226 | Success, BundleError and escape are each determined by disk, archive and caps, with the disk each leaves; a BundleError takes away a destination this call made and otherwise exactly the files touched; cap errors are real; writes respect caps and destination at every moment. |
| Bundle.MadeDestinationIsGoneIff | scripts/deploy/bundle_utils.py:221-226 | A destination that the call made is gone after a failure iff no exception escapes the except clauses; the files are then what they were. |
| Bundle.FileIsLostIff | scripts/deploy/bundle_utils.py:129-136 | In a destination that existed, a failure costs a file iff it is named by a member before the first that does not fit or bursts a cap, or by that one if it got as far as its open. |
| Bundle.StopIsAll | scripts/deploy/bundle_utils.py:154-191 | Extraction stops before the end iff some member does not fit or the total cap bursts. |
| Bundle.TruncatedArchiveKeepsDestination | scripts/deploy/bundle_utils.py:214-226 | A call on an archive whose headers end early, raising EOFError, leaves the destination it made. |
| Bundle.NulNameKeepsDestination | scripts/deploy/bundle_utils.py:93-100 | A call on an archive with a NUL in a member name passes validation, raises ValueError and leaves the destination it made. |
| Bundle.PrunedRestores | scripts/deploy/bundle_utils.py:126-128 | Pruning a created destination restores the files exactly; only its ancestors remain. |
| Bundle.OverwrittenFileIsLost | scripts/deploy/bundle_utils.py:119-136 | A call on a directory with a file and an archive with a member of that name whose reading fails: the file is gone. |
| Bundle.LastMemberWins | scripts/deploy/bundle_utils.py:174-191 | After success a path holds the full content of the last file member written to it. |
| Bundle.OthersAreKept | scripts/deploy/bundle_utils.py:139-191 | Every path no member is written to keeps what it held. |

## Left out

- AgentTools.ToCommand: the arguments of read and control tools are not validated; with an arguments object they report the mode error, where the program may report invalid arguments first. Either way no command results.
- NotesLaws.NeverStranded: excepts a rejected PATCH, because a rejection leaves `run` before its follow-up; `patch` is assumed not to throw synchronously.
- PlanSaveLaws.BaselineMatchesServer: assumes a single writer - the analysis job, which also stores drafts, is not modelled - and that a failed PUT was not applied.
- PlanSaveLaws.CommitSentForServerCopy: browser events are taken to happen only when no promise continuation is due.
- PoseSolver.SolveCameraPose: the heuristic start poses are a parameter; whether the iteration converges is not claimed.
- JacobiEigen.Eigen: the half angle and the square root are functions with their defining equations; whether 100 sweeps suffice is not claimed.
- Bundle.FileSystem.ExtractSafe: of a destination that existed, a failure may remove directories named by members if they are empty then; which of them is not characterised.
- NotesModel lets timers and calls happen also between a settlement and its continuation, which a browser does only for promise continuations; the laws hold for these extra runs too.
- Floating point: rounding, overflow, infinities, NaN and negative zero; all numbers are exact reals, so the non-finite branches of the sources have no counterpart.
- Degrees and radians: angles are one unit; the conversion in the pose parameters is not modelled.
- `_euler_xyz_from_matrix`, `_look_at`, `_heuristic_candidates` and `default_intrinsics`: heuristic starting values.
- Pydantic validation: entities, transforms and locks are validated datatypes; a malformed payload is one error.
- Scene header, cameras and lighting, which no command touches.
- Autosave timing (the debounce and ten-second cap), React state, project switching and the texts shown.
- `toFixed` in exponent form for amounts from 1e21 on.
- Tar parsing, hashing, manifests and image identities: an archive is its members with their contents.
- Links on the disk, permissions, limits on the length or encoding of names, write errors such as a full disk, and concurrent changes of the disk during an extraction.
- When the effects of the plan editor cancel their requests: the model delivers any answer, once.
- HTTP, database, object storage, Blender and the rendering code: input and output.
- Label maps, checklists, presets and payload builders: single-branch code with nothing to prove across functions.
