/**
 One pass of nclttr's main loop, the hide/reveal state machine.

 The X11, XInput2, XFixes and `select` calls are abstracted into one
 `Occurrence` per pass: what the environment answered when the loop asked.
 The pass itself is the pure function `Step`, which returns the new state,
 the visibility call made (if any), the calls made on the event's extended
 data, and whether the loop keeps running.
 */
module Loop {
  import opened Options

  /** `hidden` mirrors the C flag; (x, y) is the jitter accumulator, read exactly. */
  datatype State = State(hidden: bool, x: real, y: real)

  /** The state the loop starts in: pointer visible, accumulator at the origin. */
  const Initial: State := State(false, 0.0, 0.0)

  /** What a retrieved event turns out to be once the loop looks at it. */
  datatype Event =
    | RawMotion(dx: real, dy: real)  // XI_RawMotion with its first two raw values
    | RawOther                       // XI_RawButtonPress or XI_RawTouchUpdate
    | DataUnavailable                // XGetEventData could not fetch the extended data

  /** What the environment answered during one pass of the loop. */
  datatype Occurrence =
    | WaitExpired          // nothing was queued and the timed wait returned 0
    | PipeReady            // nothing was queued and the wait reported the self-pipe readable
    | NextEventFailed      // XNextEvent returned non-zero
    | Received(ev: Event)  // XNextEvent delivered an event

  /** The visibility actuator call made during a pass, if any. */
  datatype Action = NoAction | Hide | Show

  /** Calls made on the cookie of the retrieved event. */
  datatype DataCall = GetData | FreeData

  datatype Outcome = Outcome(next: State, action: Action, running: bool, data: seq<DataCall>)

  /** Squared length of the accumulated motion, as the C code computes it. */
  function Mag2(x: real, y: real): real {
    x * x + y * y
  }

  /**
   The timed wait is entered only while visible, so it can expire or report
   the self-pipe only then; while hidden the loop goes straight to XNextEvent.
   */
  predicate Possible(s: State, o: Occurrence) {
    (o.WaitExpired? || o.PipeReady?) ==> !s.hidden
  }

  /** Jitter filtering is on whenever the stored threshold is non-zero (`if (jitter)`). */
  predicate Filtering(cfg: Config) {
    cfg.jitterSq != 0
  }

  /** One pass of `while (running)`. */
  function Step(cfg: Config, s: State, o: Occurrence): (r: Outcome)
    requires Possible(s, o)
    // a visibility call is made exactly when the visibility flips, and in the right direction
    ensures r.action == Hide <==> !s.hidden && r.next.hidden
    ensures r.action == Show <==> s.hidden && !r.next.hidden
    ensures r.action == NoAction <==> r.next.hidden == s.hidden
    // becoming hidden always starts a fresh accumulator
    ensures !s.hidden && r.next.hidden ==> r.next.x == 0.0 && r.next.y == 0.0
    // a visible pass that does not hide changes nothing
    ensures !s.hidden && !r.next.hidden ==> r.next == s
    // staying hidden happens only with filtering on, after a failed fetch or below-threshold motion
    ensures s.hidden && r.next.hidden && r.running ==>
              Filtering(cfg) && o.Received? &&
              (r.next == s || Mag2(r.next.x, r.next.y) < cfg.jitterSq as real)
    // with filtering on, motion reveals only once the accumulator reaches the threshold
    ensures s.hidden && Filtering(cfg) && o.Received? && o.ev.RawMotion? ==>
              r.next.x == s.x + o.ev.dx && r.next.y == s.y + o.ev.dy &&
              (r.next.hidden <==> Mag2(r.next.x, r.next.y) < cfg.jitterSq as real)
    // stopping makes no call and leaves the state alone
    ensures !r.running <==> o.PipeReady? || o.NextEventFailed?
    ensures !r.running ==> r.next == s && r.action == NoAction
    // the extended data is fetched only while hidden with filtering on, and then always freed once
    ensures r.data == [] || r.data == [GetData, FreeData]
    ensures r.data != [] <==> s.hidden && Filtering(cfg) && o.Received?
  {
    match o
    case WaitExpired =>
      Outcome(State(true, 0.0, 0.0), Hide, true, [])
    case PipeReady =>
      Outcome(s, NoAction, false, [])
    case NextEventFailed =>
      Outcome(s, NoAction, false, [])
    case Received(ev) =>
      if !s.hidden then
        Outcome(s, NoAction, true, [])
      else if !Filtering(cfg) then
        Outcome(s.(hidden := false), Show, true, [])
      else
        match ev
        case DataUnavailable =>
          Outcome(s, NoAction, true, [GetData, FreeData])
        case RawOther =>
          Outcome(s.(hidden := false), Show, true, [GetData, FreeData])
        case RawMotion(dx, dy) =>
          var x, y := s.x + dx, s.y + dy;
          if Mag2(x, y) < cfg.jitterSq as real then
            Outcome(State(true, x, y), NoAction, true, [GetData, FreeData])
          else
            Outcome(State(false, x, y), Show, true, [GetData, FreeData])
  }

  /** Idle timeout while visible: hide once and reset the accumulator. */
  lemma TimeoutHides(cfg: Config, s: State)
    requires !s.hidden
    ensures Step(cfg, s, WaitExpired) == Outcome(State(true, 0.0, 0.0), Hide, true, [])
  {
  }

  /** An event retrieved while visible is drained with no call and no change. */
  lemma VisibleEventDrained(cfg: Config, s: State, ev: Event)
    requires !s.hidden
    ensures Step(cfg, s, Received(ev)) == Outcome(s, NoAction, true, [])
  {
  }

  /** Hidden without filtering, or hidden and the event is not motion: reveal at once. */
  lemma UnfilteredReveal(cfg: Config, s: State, ev: Event)
    requires s.hidden
    requires !Filtering(cfg) || ev.RawOther?
    ensures Step(cfg, s, Received(ev)).next == s.(hidden := false)
    ensures Step(cfg, s, Received(ev)).action == Show
    ensures Step(cfg, s, Received(ev)).running
  {
  }

  /** Hidden with filtering: motion accumulates; strictly inside the radius it stays hidden. */
  lemma MotionAccumulates(cfg: Config, s: State, dx: real, dy: real)
    requires s.hidden && Filtering(cfg)
    ensures var r := Step(cfg, s, Received(RawMotion(dx, dy)));
      && r.next.x == s.x + dx && r.next.y == s.y + dy && r.running
      && (Mag2(s.x + dx, s.y + dy) < cfg.jitterSq as real ==> r.next.hidden && r.action == NoAction)
      && (Mag2(s.x + dx, s.y + dy) >= cfg.jitterSq as real ==> !r.next.hidden && r.action == Show)
  {
  }

  /** Hidden with filtering and the data fetch failed: nothing happens but the free. */
  lemma FetchFailureIgnored(cfg: Config, s: State)
    requires s.hidden && Filtering(cfg)
    ensures Step(cfg, s, Received(DataUnavailable)) == Outcome(s, NoAction, true, [GetData, FreeData])
  {
  }

  /** The self-pipe during the timed wait, or a failing XNextEvent, ends the loop silently. */
  lemma StopIsSilent(cfg: Config, s: State, o: Occurrence)
    requires Possible(s, o)
    requires o.PipeReady? || o.NextEventFailed?
    ensures Step(cfg, s, o) == Outcome(s, NoAction, false, [])
  {
  }

  /**
   While hidden the self-pipe is not watched: only a failing XNextEvent stops
   the loop, so an interrupt is noticed after the next input event at the earliest.
   */
  lemma HiddenStopsOnlyOnEventFailure(cfg: Config, s: State, o: Occurrence)
    requires s.hidden && Possible(s, o)
    ensures !Step(cfg, s, o).running <==> o.NextEventFailed?
  {
  }

  /**
   While hidden, the accumulator lies strictly inside the jitter radius, or,
   with filtering off, is still at the origin.
   */
  predicate Inside(cfg: Config, s: State) {
    s.hidden ==> Mag2(s.x, s.y) < cfg.jitterSq as real || (cfg.jitterSq == 0 && s.x == 0.0 && s.y == 0.0)
  }

  /** Every pass keeps the accumulator inside the radius while hidden. */
  lemma StepKeepsInside(cfg: Config, s: State, o: Occurrence)
    requires cfg.jitterSq >= 0
    requires Possible(s, o) && Inside(cfg, s)
    ensures Inside(cfg, Step(cfg, s, o).next)
  {
  }
}
