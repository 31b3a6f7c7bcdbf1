/** The lightbox zoom and pan reducer of apps/web/src/imagePreview.ts on exact reals. */
module Lightbox {
  import opened Wrappers
  import opened Reals

  datatype Size = Size(x: real, y: real)

  datatype Point = Point(x: real, y: real)

  datatype ZoomState = ZoomState(zoom: real, pan: Point)

  datatype Fit = Fit(fitScale: real, rendered: Size)

  datatype Command = ZoomIn | ZoomOut | Reset | FitCommand | PanLeft | PanRight | PanUp | PanDown

  const MIN_ZOOM: real := 1.0
  const MAX_ZOOM: real := 4.0
  const STEP: real := 1.25
  const PAN_STEP: real := 48.0

  function Min(a: real, b: real): real { if a <= b then a else b }

  function Max(a: real, b: real): real { if a >= b then a else b }

  /** A present image with positive sides. */
  predicate IsValidSize(image: Option<Size>) {
    image.Some? && image.value.x > 0.0 && image.value.y > 0.0
  }

  predicate IsValidViewport(v: Size) {
    v.x >= 0.0 && v.y >= 0.0
  }

  function FitContain(image: Option<Size>, viewport: Size): Fit {
    if !IsValidSize(image) || !(viewport.x > 0.0 && viewport.y > 0.0) then Fit(1.0, Size(0.0, 0.0))
    else
      var scale := Min(viewport.x / image.value.x, viewport.y / image.value.y);
      var fitScale := if scale > 0.0 then scale else 1.0;
      Fit(fitScale, Size(image.value.x * fitScale, image.value.y * fitScale))
  }

  function ClampZoom(zoom: real): real {
    Min(MAX_ZOOM, Max(MIN_ZOOM, zoom))
  }

  function RenderedSizeAtZoom(image: Option<Size>, fitScale: real, zoom: real): Size {
    if !IsValidSize(image) then Size(0.0, 0.0)
    else Size(image.value.x * fitScale * zoom, image.value.y * fitScale * zoom)
  }

  /** How far the centre may drift along one axis. */
  function Bound(rendered: real, viewport: real): real {
    if rendered > viewport then (rendered - viewport) / 2.0 else 0.0
  }

  /** panBounds: the bounds are symmetric, so one point gives both. */
  function PanBounds(rendered: Size, viewport: Size): Point {
    var safeRendered := if rendered.x > 0.0 && rendered.y > 0.0 then rendered else Size(0.0, 0.0);
    var safeViewport := if IsValidViewport(viewport) then viewport else Size(0.0, 0.0);
    Point(Bound(safeRendered.x, safeViewport.x), Bound(safeRendered.y, safeViewport.y))
  }

  function Clamp(v: real, bound: real): real {
    Min(bound, Max(-bound, v))
  }

  function ClampPan(pan: Point, rendered: Size, viewport: Size): Point {
    var bounds := PanBounds(rendered, viewport);
    Point(Clamp(pan.x, bounds.x), Clamp(pan.y, bounds.y))
  }

  /** The pan before clamping: about the focal point, or about the centre. */
  function ScaledPan(pan: Point, factor: real, focal: Option<Point>, viewport: Size): Point {
    match focal
    case None => Point(pan.x * factor, pan.y * factor)
    case Some(f) =>
      Point((f.x - viewport.x / 2.0) * (1.0 - factor) + pan.x * factor,
            (f.y - viewport.y / 2.0) * (1.0 - factor) + pan.y * factor)
  }

  function ApplyZoomAtPoint(
      state: ZoomState, nextZoom: real, focal: Option<Point>, viewport: Size, image: Option<Size>): ZoomState
  {
    if !IsValidViewport(viewport) || nextZoom <= 0.0 then ZoomState(ClampZoom(nextZoom), Point(0.0, 0.0))
    else
      var previousZoom := if state.zoom > 0.0 then state.zoom else 1.0;
      var pan := ScaledPan(state.pan, nextZoom / previousZoom, focal, viewport);
      var rendered := RenderedSizeAtZoom(image, FitContain(image, viewport).fitScale, nextZoom);
      ZoomState(nextZoom, ClampPan(pan, rendered, viewport))
  }

  function Shift(command: Command): Point {
    match command
    case PanLeft => Point(PAN_STEP, 0.0)
    case PanRight => Point(-PAN_STEP, 0.0)
    case PanUp => Point(0.0, PAN_STEP)
    case PanDown => Point(0.0, -PAN_STEP)
    case _ => Point(0.0, 0.0)
  }

  function Reduce(state: ZoomState, command: Command, viewport: Size, image: Option<Size>): ZoomState {
    var currentZoom := if state.zoom > 0.0 then state.zoom else 1.0;
    match command
    case Reset => ZoomState(1.0, Point(0.0, 0.0))
    case FitCommand => ZoomState(1.0, Point(0.0, 0.0))
    case ZoomIn => ApplyZoomAtPoint(state, ClampZoom(currentZoom * STEP), None, viewport, image)
    case ZoomOut => ApplyZoomAtPoint(state, ClampZoom(currentZoom / STEP), None, viewport, image)
    case _ =>
      var rendered := RenderedSizeAtZoom(image, FitContain(image, viewport).fitScale, currentZoom);
      var shift := Shift(command);
      ZoomState(currentZoom, ClampPan(Point(state.pan.x + shift.x, state.pan.y + shift.y), rendered, viewport))
  }

  function Run(state: ZoomState, commands: seq<Command>, viewport: Size, image: Option<Size>): ZoomState
    decreases |commands|
  {
    if commands == [] then state
    else Run(Reduce(state, commands[0], viewport, image), commands[1..], viewport, image)
  }

  const INITIAL := ZoomState(1.0, Point(0.0, 0.0))

  // ---------------------------------------------------------------------
  // Fitting
  // ---------------------------------------------------------------------

  /** The fitted image is the largest scaling of the image that the viewport contains. */
  lemma FitIsLargestContained(image: Size, viewport: Size, scale: real)
    requires image.x > 0.0 && image.y > 0.0 && viewport.x > 0.0 && viewport.y > 0.0 && scale > 0.0
    ensures var fit := FitContain(Some(image), viewport);
            && fit.rendered == Size(image.x * fit.fitScale, image.y * fit.fitScale)
            && fit.rendered.x <= viewport.x && fit.rendered.y <= viewport.y
            && (fit.rendered.x == viewport.x || fit.rendered.y == viewport.y)
            && (image.x * scale <= viewport.x && image.y * scale <= viewport.y <==> scale <= fit.fitScale)
  {
    var a, b := viewport.x / image.x, viewport.y / image.y;
    DivTimes(viewport.x, image.x);
    DivTimes(viewport.y, image.y);
    PositiveQuotient(viewport.x, image.x);
    PositiveQuotient(viewport.y, image.y);
    var s := Min(a, b);
    ScaleLe(s, a, image.x);
    ScaleLe(s, b, image.y);
    ScaleLe(scale, a, image.x);
    ScaleLe(scale, b, image.y);
  }

  /** Without an image, or with an empty viewport, nothing is shown at scale 1. */
  lemma FitFallsBack(image: Option<Size>, viewport: Size)
    requires image.None? || image.value.x <= 0.0 || image.value.y <= 0.0 || viewport.x <= 0.0 || viewport.y <= 0.0
    ensures FitContain(image, viewport) == Fit(1.0, Size(0.0, 0.0))
  {
  }

  /** What a state shows is the fitted image, enlarged by the zoom. */
  lemma ShownIsFitTimesZoom(s: ZoomState, viewport: Size, image: Size)
    requires image.x > 0.0 && image.y > 0.0 && viewport.x > 0.0 && viewport.y > 0.0
    ensures var rendered := FitContain(Some(image), viewport).rendered;
            Shown(s, viewport, Some(image)) == Size(rendered.x * s.zoom, rendered.y * s.zoom)
  {
  }

  lemma PositiveQuotient(a: real, b: real)
    requires a > 0.0 && b > 0.0
    ensures a / b > 0.0
  {
  }

  // ---------------------------------------------------------------------
  // What every run keeps
  // ---------------------------------------------------------------------

  /** The image size a state shows, and how far its centre may drift. */
  function Shown(state: ZoomState, viewport: Size, image: Option<Size>): Size {
    RenderedSizeAtZoom(image, FitContain(image, viewport).fitScale, state.zoom)
  }

  function Allowed(state: ZoomState, viewport: Size, image: Option<Size>): Point {
    PanBounds(Shown(state, viewport, image), viewport)
  }

  ghost predicate Within(pan: Point, bounds: Point) {
    -bounds.x <= pan.x <= bounds.x && -bounds.y <= pan.y <= bounds.y
  }

  ghost predicate Good(state: ZoomState, viewport: Size, image: Option<Size>) {
    MIN_ZOOM <= state.zoom <= MAX_ZOOM && Within(state.pan, Allowed(state, viewport, image))
  }

  lemma BoundsNonnegative(rendered: Size, viewport: Size)
    ensures PanBounds(rendered, viewport).x >= 0.0 && PanBounds(rendered, viewport).y >= 0.0
  {
  }

  /** Clamping lands within the bounds and moves exactly the pans outside them. */
  lemma ClampPanWithin(pan: Point, rendered: Size, viewport: Size)
    ensures Within(ClampPan(pan, rendered, viewport), PanBounds(rendered, viewport))
    ensures ClampPan(pan, rendered, viewport) == pan <==> Within(pan, PanBounds(rendered, viewport))
  {
    BoundsNonnegative(rendered, viewport);
    hide PanBounds;
    var b, p := PanBounds(rendered, viewport), ClampPan(pan, rendered, viewport);
    assert p.x == pan.x <==> -b.x <= pan.x <= b.x;
    assert p.y == pan.y <==> -b.y <= pan.y <= b.y;
  }

  lemma ReduceKeepsGood(state: ZoomState, command: Command, viewport: Size, image: Option<Size>)
    requires Good(state, viewport, image)
    ensures Good(Reduce(state, command, viewport, image), viewport, image)
  {
    hide PanBounds;
    hide ClampPan;
    hide FitContain;
    hide RenderedSizeAtZoom;
    hide ScaledPan;
    var t := Reduce(state, command, viewport, image);
    var rendered := Shown(t, viewport, image);
    BoundsNonnegative(rendered, viewport);
    var fitScale := FitContain(image, viewport).fitScale;
    var shift := Shift(command);
    ClampPanWithin(Point(state.pan.x + shift.x, state.pan.y + shift.y), rendered, viewport);
    ClampPanWithin(ScaledPan(state.pan, t.zoom / state.zoom, None, viewport), rendered, viewport);
  }

  /** From the initial state every command sequence keeps zoom in [1, 4] and pan within bounds. */
  lemma {:induction false} RunKeepsGood(state: ZoomState, commands: seq<Command>, viewport: Size, image: Option<Size>)
    requires Good(state, viewport, image)
    ensures Good(Run(state, commands, viewport, image), viewport, image)
    decreases |commands|
  {
    hide Good;
    hide Reduce;
    if commands != [] {
      ReduceKeepsGood(state, commands[0], viewport, image);
      RunKeepsGood(Reduce(state, commands[0], viewport, image), commands[1..], viewport, image);
    }
  }

  lemma InitialIsGood(viewport: Size, image: Option<Size>)
    ensures Good(INITIAL, viewport, image)
  {
    BoundsNonnegative(Shown(INITIAL, viewport, image), viewport);
  }

  /** One axis: the image leaves no gap, or it is no larger than the viewport and exactly centred. */
  ghost predicate AxisCovered(rendered: real, viewport: real, pan: real) {
    var left := viewport / 2.0 + pan - rendered / 2.0;
    if rendered > viewport then left <= 0.0 && left + rendered >= viewport else pan == 0.0
  }

  /** The bounds are exact: a pan is allowed iff the image then covers the viewport or is centred. */
  lemma AllowedIffCovered(pan: Point, rendered: Size, viewport: Size)
    requires rendered.x > 0.0 && rendered.y > 0.0 && IsValidViewport(viewport)
    ensures Within(pan, PanBounds(rendered, viewport))
       <==> AxisCovered(rendered.x, viewport.x, pan.x) && AxisCovered(rendered.y, viewport.y, pan.y)
  {
  }

  /** A size that is not positive leaves no room. */
  lemma NothingNoRoom(rendered: Size, viewport: Size)
    requires rendered.x <= 0.0 || rendered.y <= 0.0
    ensures PanBounds(rendered, viewport) == Point(0.0, 0.0)
  {
  }

  function Distance(a: real, b: real): real { if a <= b then b - a else a - b }

  /** Clamping goes to the nearest allowed pan, axis by axis. */
  lemma ClampPanNearest(pan: Point, other: Point, rendered: Size, viewport: Size)
    requires Within(other, PanBounds(rendered, viewport))
    ensures var p := ClampPan(pan, rendered, viewport);
            Distance(p.x, pan.x) <= Distance(other.x, pan.x) && Distance(p.y, pan.y) <= Distance(other.y, pan.y)
  {
    hide PanBounds;
  }

  /** A pan command moves the image one step to its side, as far as the edge allows, and leaves the
      zoom and the other axis alone. */
  lemma PanMoves(s: ZoomState, viewport: Size, image: Option<Size>)
    requires s.zoom > 0.0 && Within(s.pan, Allowed(s, viewport, image))
    ensures var a := Allowed(s, viewport, image);
            && Reduce(s, PanLeft, viewport, image) == s.(pan := Point(Min(a.x, s.pan.x + 48.0), s.pan.y))
            && Reduce(s, PanRight, viewport, image) == s.(pan := Point(Max(-a.x, s.pan.x - 48.0), s.pan.y))
            && Reduce(s, PanUp, viewport, image) == s.(pan := Point(s.pan.x, Min(a.y, s.pan.y + 48.0)))
            && Reduce(s, PanDown, viewport, image) == s.(pan := Point(s.pan.x, Max(-a.y, s.pan.y - 48.0)))
  {
    hide PanBounds;
    hide FitContain;
    hide RenderedSizeAtZoom;
  }

  /** From anywhere, reset and fit go back to the start. */
  lemma ResetRestarts(s: ZoomState, commands: seq<Command>, command: Command, viewport: Size, image: Option<Size>)
    requires command.Reset? || command.FitCommand?
    ensures Run(s, [command] + commands, viewport, image) == Run(INITIAL, commands, viewport, image)
    ensures Reduce(s, command, viewport, image) == ZoomState(1.0, Point(0.0, 0.0))
  {
    assert ([command] + commands)[1..] == commands;
  }

  lemma RunStep(s: ZoomState, command: Command, rest: seq<Command>, viewport: Size, image: Option<Size>)
    ensures Run(s, [], viewport, image) == s
    ensures Run(s, [command] + rest, viewport, image) == Run(Reduce(s, command, viewport, image), rest, viewport, image)
  {
    assert ([command] + rest)[1..] == rest;
  }

  /** A state whose zoom is not positive counts as one at zoom 1. */
  lemma BadZoomIsOne(s: ZoomState, command: Command, viewport: Size, image: Option<Size>)
    requires s.zoom <= 0.0
    ensures Reduce(s, command, viewport, image) == Reduce(s.(zoom := 1.0), command, viewport, image)
  {
    hide ClampPan, FitContain, RenderedSizeAtZoom, ScaledPan;
  }

  /** So in every reachable state the image covers the viewport or is centred, axis by axis. */
  lemma ReachableCovers(commands: seq<Command>, viewport: Size, image: Size)
    requires image.x > 0.0 && image.y > 0.0 && viewport.x > 0.0 && viewport.y > 0.0
    ensures var s := Run(INITIAL, commands, viewport, Some(image));
            var shown := Shown(s, viewport, Some(image));
            AxisCovered(shown.x, viewport.x, s.pan.x) && AxisCovered(shown.y, viewport.y, s.pan.y)
  {
    var s := Run(INITIAL, commands, viewport, Some(image));
    assert Good(s, viewport, Some(image)) by {
      InitialIsGood(viewport, Some(image));
      RunKeepsGood(INITIAL, commands, viewport, Some(image));
    }
    ShownPositive(s, viewport, image);
    hide Run;
    hide FitContain;
    hide RenderedSizeAtZoom;
  }

  lemma ShownPositive(s: ZoomState, viewport: Size, image: Size)
    requires image.x > 0.0 && image.y > 0.0 && viewport.x >= 0.0 && viewport.y >= 0.0 && s.zoom > 0.0
    ensures Shown(s, viewport, Some(image)).x > 0.0 && Shown(s, viewport, Some(image)).y > 0.0
  {
    var fitScale := FitContain(Some(image), viewport).fitScale;
    PositiveProduct(image.x, fitScale);
    PositiveProduct(image.y, fitScale);
    PositiveProduct(image.x * fitScale, s.zoom);
    PositiveProduct(image.y * fitScale, s.zoom);
  }

  // ---------------------------------------------------------------------
  // Zooming in and back out
  // ---------------------------------------------------------------------

  lemma GrowsBy(a: real, factor: real)
    requires a >= 0.0 && factor >= 1.0
    ensures a * factor >= a
  {
    if a > 0.0 {
      ScaleLe(1.0, factor, a);
    }
  }

  /** Growing the image by `factor` >= 1 makes room for the grown pan. */
  lemma GrownPanFits(rendered: real, viewport: real, factor: real, pan: real)
    requires rendered > 0.0 && viewport >= 0.0 && factor >= 1.0
    requires -Bound(rendered, viewport) <= pan <= Bound(rendered, viewport)
    ensures -Bound(rendered * factor, viewport) <= pan * factor <= Bound(rendered * factor, viewport)
  {
    var grown, reach, b := rendered * factor, viewport * factor, Bound(rendered, viewport);
    GrowsBy(rendered, factor);
    GrowsBy(viewport, factor);
    ScaleLe(pan, b, factor);
    ScaleLe(-b, pan, factor);
    if rendered > viewport {
      HalfDifference(rendered, viewport, factor);
      RoomGrows(rendered, viewport, grown, reach, b * factor, pan * factor);
    }
  }

  lemma RoomGrows(rendered: real, viewport: real, grown: real, reach: real, room: real, pan: real)
    requires grown >= rendered > viewport && reach >= viewport
    requires room == (grown - reach) / 2.0 && -room <= pan <= room
    ensures -Bound(grown, viewport) <= pan <= Bound(grown, viewport)
  {
  }

  lemma HalfDifference(a: real, b: real, factor: real)
    ensures ((a - b) / 2.0) * factor == (a * factor - b * factor) / 2.0
  {
  }

  function ScaledSize(size: Size, factor: real): Size {
    Size(size.x * factor, size.y * factor)
  }

  /** The shown image grows with the zoom. */
  lemma ShownGrows(s: ZoomState, t: ZoomState, factor: real, viewport: Size, image: Option<Size>)
    requires t.zoom == s.zoom * factor
    ensures Shown(t, viewport, image) == ScaledSize(Shown(s, viewport, image), factor)
  {
    if IsValidSize(image) {
      var fitScale := FitContain(image, viewport).fitScale;
      Reassociate(image.value.x * fitScale, s.zoom, factor);
      Reassociate(image.value.y * fitScale, s.zoom, factor);
      hide FitContain;
      MulEqual(t.zoom, s.zoom * factor, image.value.x * fitScale);
      MulEqual(t.zoom, s.zoom * factor, image.value.y * fitScale);
    }
  }

  lemma Reassociate(a: real, b: real, c: real)
    ensures a * (b * c) == a * b * c
  {
  }

  /** A pan allowed at one zoom, scaled with the image, is allowed at the larger zoom. */
  lemma ScaledPanAllowed(s: ZoomState, t: ZoomState, factor: real, viewport: Size, image: Option<Size>)
    requires Good(s, viewport, image) && IsValidViewport(viewport) && factor >= 1.0 && t.zoom == s.zoom * factor
    ensures Within(ScaledPan(s.pan, factor, None, viewport), Allowed(t, viewport, image))
  {
    hide Shown;
    hide PanBounds;
    hide Within;
    hide ScaledPan;
    hide ScaledSize;
    ShownGrows(s, t, factor, viewport, image);
    if IsValidSize(image) {
      ShownPositive(s, viewport, image.value);
      ScaledWithin(Shown(s, viewport, image), viewport, factor, s.pan);
    } else {
      NoImageNoPan(s, t, factor, viewport, image);
    }
  }

  lemma ScaledWithin(shown: Size, viewport: Size, factor: real, pan: Point)
    requires shown.x > 0.0 && shown.y > 0.0 && IsValidViewport(viewport) && factor >= 1.0
    requires Within(pan, PanBounds(shown, viewport))
    ensures Within(ScaledPan(pan, factor, None, viewport), PanBounds(ScaledSize(shown, factor), viewport))
  {
    BoundsOf(shown, viewport);
    PositiveProduct(shown.x, factor);
    PositiveProduct(shown.y, factor);
    BoundsOf(ScaledSize(shown, factor), viewport);
    hide PanBounds;
    hide Bound;
    GrownPanFits(shown.x, viewport.x, factor, pan.x);
    GrownPanFits(shown.y, viewport.y, factor, pan.y);
  }

  lemma BoundsOf(rendered: Size, viewport: Size)
    requires rendered.x > 0.0 && rendered.y > 0.0 && IsValidViewport(viewport)
    ensures PanBounds(rendered, viewport) == Point(Bound(rendered.x, viewport.x), Bound(rendered.y, viewport.y))
  {
  }

  lemma NoImageNoPan(s: ZoomState, t: ZoomState, factor: real, viewport: Size, image: Option<Size>)
    requires Good(s, viewport, image) && IsValidViewport(viewport) && !IsValidSize(image)
    ensures Within(ScaledPan(s.pan, factor, None, viewport), Allowed(t, viewport, image))
  {
  }

  /** A scaled pan within the new bounds is taken as it is. */
  lemma UnclampedWhenAllowed(s: ZoomState, nextZoom: real, focal: Option<Point>, viewport: Size, image: Option<Size>)
    requires s.zoom > 0.0 && nextZoom > 0.0 && IsValidViewport(viewport)
    requires Within(ScaledPan(s.pan, nextZoom / s.zoom, focal, viewport), Allowed(ZoomState(nextZoom, s.pan), viewport, image))
    ensures ApplyZoomAtPoint(s, nextZoom, focal, viewport, image)
         == ZoomState(nextZoom, ScaledPan(s.pan, nextZoom / s.zoom, focal, viewport))
  {
    hide ScaledPan;
    hide PanBounds;
    hide Within;
    hide ClampPan;
    ClampPanWithin(ScaledPan(s.pan, nextZoom / s.zoom, focal, viewport), Shown(ZoomState(nextZoom, s.pan), viewport, image), viewport);
  }

  /** Zooming in about the centre never needs clamping. */
  lemma CentreZoomInUnclamped(s: ZoomState, nextZoom: real, viewport: Size, image: Option<Size>)
    requires Good(s, viewport, image) && viewport.x >= 0.0 && viewport.y >= 0.0 && nextZoom >= s.zoom
    ensures ApplyZoomAtPoint(s, nextZoom, None, viewport, image)
         == ZoomState(nextZoom, ScaledPan(s.pan, nextZoom / s.zoom, None, viewport))
  {
    var factor := nextZoom / s.zoom;
    DivTimes(nextZoom, s.zoom);
    ScaleLe(1.0, factor, s.zoom);
    ScaledPanAllowed(s, ZoomState(nextZoom, s.pan), factor, viewport, image);
    hide *;
    UnclampedWhenAllowed(s, nextZoom, None, viewport, image);
  }

  lemma StepRatios(zoom: real)
    requires zoom > 0.0
    ensures (zoom * STEP) / zoom == STEP && (zoom * STEP) / STEP == zoom && zoom / (zoom * STEP) == 1.0 / STEP
  {
    DivUnique(zoom * STEP, zoom, STEP);
    DivUnique(zoom * STEP, STEP, zoom);
    DivUnique(zoom, zoom * STEP, 1.0 / STEP);
  }

  lemma ScaledBack(pan: Point, viewport: Size)
    ensures ScaledPan(ScaledPan(pan, STEP, None, viewport), 1.0 / STEP, None, viewport) == pan
  {
  }

  /** An uncut step in is undone by a step out. */
  lemma ZoomOutRestores(s: ZoomState, viewport: Size, image: Option<Size>)
    requires Good(s, viewport, image) && s.zoom * STEP <= MAX_ZOOM && IsValidViewport(viewport)
    ensures Reduce(Reduce(s, ZoomIn, viewport, image), ZoomOut, viewport, image) == s
  {
    var t := ZoomState(s.zoom * STEP, ScaledPan(s.pan, STEP, None, viewport));
    StepRatios(s.zoom);
    CentreZoomInUnclamped(s, s.zoom * STEP, viewport, image);
    ScaledBack(s.pan, viewport);
    hide ScaledPan;
    hide ApplyZoomAtPoint;
    hide PanBounds;
    hide Shown;
    hide Within;
    assert Reduce(s, ZoomIn, viewport, image) == t;
    assert Allowed(ZoomState(s.zoom, t.pan), viewport, image) == Allowed(s, viewport, image) by { SameAllowed(s, t.pan, viewport, image); }
    UnclampedWhenAllowed(t, s.zoom, None, viewport, image);
  }

  lemma SameAllowed(s: ZoomState, pan: Point, viewport: Size, image: Option<Size>)
    ensures Allowed(ZoomState(s.zoom, pan), viewport, image) == Allowed(s, viewport, image)
  {
  }

  /** One step in and one step out is the identity exactly when the step in was not cut short by
      the maximum zoom (and, in an unusable viewport, the pan was zero to begin with). */
  lemma ZoomInThenOut(s: ZoomState, viewport: Size, image: Option<Size>)
    requires Good(s, viewport, image)
    ensures Reduce(Reduce(s, ZoomIn, viewport, image), ZoomOut, viewport, image) == s
       <==> s.zoom * STEP <= MAX_ZOOM && ((viewport.x >= 0.0 && viewport.y >= 0.0) || s.pan == Point(0.0, 0.0))
  {
    ZoomLevels(s, viewport, image);
    if s.zoom * STEP <= MAX_ZOOM && IsValidViewport(viewport) {
      ZoomOutRestores(s, viewport, image);
    }
    hide Reduce;
    hide Good;
  }

  lemma ZoomLevels(s: ZoomState, viewport: Size, image: Option<Size>)
    requires MIN_ZOOM <= s.zoom <= MAX_ZOOM
    ensures var t := Reduce(s, ZoomIn, viewport, image);
            var u := Reduce(t, ZoomOut, viewport, image);
            && t.zoom == Min(MAX_ZOOM, s.zoom * STEP)
            && Reduce(s, ZoomOut, viewport, image).zoom == Max(MIN_ZOOM, s.zoom / STEP)
            && (u.zoom == s.zoom <==> s.zoom * STEP <= MAX_ZOOM)
            && (!IsValidViewport(viewport) ==> u.pan == Point(0.0, 0.0))
  {
    hide ClampPan;
    hide ScaledPan;
    hide FitContain;
    hide RenderedSizeAtZoom;
  }

  // ---------------------------------------------------------------------
  // The focal point
  // ---------------------------------------------------------------------

  /** The image point under viewport point `f`, relative to the image centre, at zoom 1. */
  function ImagePointUnder(state: ZoomState, f: Point, viewport: Size): Point
    requires state.zoom > 0.0
  {
    Point((f.x - viewport.x / 2.0 - state.pan.x) / state.zoom, (f.y - viewport.y / 2.0 - state.pan.y) / state.zoom)
  }

  lemma FocalAxis(offset: real, pan: real, pan': real, zoom: real, zoom': real, factor: real)
    requires zoom > 0.0 && zoom' > 0.0 && factor == zoom' / zoom
    ensures (offset - pan') / zoom' == (offset - pan) / zoom <==> pan' == offset * (1.0 - factor) + pan * factor
  {
    DivTimes(zoom', zoom);
    var q, q' := (offset - pan) / zoom, (offset - pan') / zoom';
    DivTimes(offset - pan, zoom);
    DivTimes(offset - pan', zoom');
    MulEqual(q * zoom, offset - pan, factor);
    assert q * zoom' == q * (zoom * factor) == (offset - pan) * factor;
    if q' != q && q' * zoom' == q * zoom' {
      Cancel(q', q, zoom');
    }
  }

  lemma FocalPointFixedIffKept(s: ZoomState, nextZoom: real, f: Point, viewport: Size, image: Option<Size>)
    requires s.zoom > 0.0 && nextZoom > 0.0 && IsValidViewport(viewport)
    ensures var t := ApplyZoomAtPoint(s, nextZoom, Some(f), viewport, image);
            && t.zoom == nextZoom
            && (ImagePointUnder(t, f, viewport) == ImagePointUnder(s, f, viewport)
                <==> t.pan == ScaledPan(s.pan, nextZoom / s.zoom, Some(f), viewport))
  {
    hide ClampPan;
    hide FitContain;
    hide RenderedSizeAtZoom;
    var t := ApplyZoomAtPoint(s, nextZoom, Some(f), viewport, image);
    FocalAxis(f.x - viewport.x / 2.0, s.pan.x, t.pan.x, s.zoom, nextZoom, nextZoom / s.zoom);
    FocalAxis(f.y - viewport.y / 2.0, s.pan.y, t.pan.y, s.zoom, nextZoom, nextZoom / s.zoom);
  }

  /** The pan after a zoom is the scaled pan, clamped at the new zoom. */
  lemma AppliedPan(s: ZoomState, nextZoom: real, focal: Option<Point>, viewport: Size, image: Option<Size>)
    requires s.zoom > 0.0 && nextZoom > 0.0 && IsValidViewport(viewport)
    ensures ApplyZoomAtPoint(s, nextZoom, focal, viewport, image).pan
         == ClampPan(ScaledPan(s.pan, nextZoom / s.zoom, focal, viewport), Shown(ZoomState(nextZoom, s.pan), viewport, image), viewport)
  {
    hide ClampPan;
    hide ScaledPan;
    hide FitContain;
    hide RenderedSizeAtZoom;
  }

  /** Zooming at a focal point keeps the image point under it fixed exactly when the pan that this
      takes is allowed at the new zoom. */
  lemma FocalPointFixedIffUnclamped(s: ZoomState, nextZoom: real, f: Point, viewport: Size, image: Option<Size>)
    requires s.zoom > 0.0 && nextZoom > 0.0 && IsValidViewport(viewport)
    ensures var t := ApplyZoomAtPoint(s, nextZoom, Some(f), viewport, image);
            && t.zoom == nextZoom
            && (ImagePointUnder(t, f, viewport) == ImagePointUnder(s, f, viewport)
                <==> Within(ScaledPan(s.pan, nextZoom / s.zoom, Some(f), viewport),
                            Allowed(ZoomState(nextZoom, s.pan), viewport, image)))
  {
    hide Within, PanBounds, ClampPan, ScaledPan, Shown, ApplyZoomAtPoint, ImagePointUnder;
    FocalPointFixedIffKept(s, nextZoom, f, viewport, image);
    AppliedPan(s, nextZoom, Some(f), viewport, image);
    ClampPanWithin(ScaledPan(s.pan, nextZoom / s.zoom, Some(f), viewport),
                   Shown(ZoomState(nextZoom, s.pan), viewport, image), viewport);
  }
}
