/**
 * The fuse / light-bulb sequence of `AnimatedFuseText`.
 *
 * A projectile flies in; when its animation completes it sets `isHit`. React
 * then re-renders and the effect that depends on `[isHit]` runs: if the
 * pendulum has not finished swinging it sets `isFlickering` and schedules a
 * one-shot timeout that clears `isFlickering` again. Independently, the
 * pendulum's animation-complete callback sets `isSwingComplete`. Everything
 * drawn is a pure function of the three flags.
 *
 * Time is not modelled: the animation-complete callbacks and the timeout are
 * abstract events that may arrive in any order.
 */
module AnimatedFuseText {
  import opened Wrappers

  /** Delay of the one-shot timeout that ends the flicker. */
  const ResetDelayMs: nat := 4000

  // ---------------------------------------------------------------------------
  // State and events
  // ---------------------------------------------------------------------------

  /**
   * The component's three state flags, together with the two pieces of state
   * that the runtime keeps on its behalf: the `isHit` value the effect last ran
   * with (React's recorded dependency), and the timeouts the effect has handed
   * to `setTimeout` and how many of them have fired.
   */
  datatype FuseState = FuseState(
    isHit: bool,
    isSwingComplete: bool,
    isFlickering: bool,
    effectSeenHit: bool,
    resetsScheduled: nat,
    resetsFired: nat)

  datatype Event =
    | ProjectileLanded   // the projectile's onAnimationComplete
    | SwingFinished      // the pendulum's onAnimationComplete
    | Commit             // React renders and runs the effects whose dependencies changed
    | ResetTimerFired    // the flicker timeout's callback

  /** The state right after mount: all flags false; the mount-time run of the
      effect sees `isHit == false` and does nothing. */
  function Mount(): (m: FuseState)
    ensures Consistent(m) && !ResetPending(m)
    ensures !m.isHit && !m.isSwingComplete && !m.isFlickering
  {
    FuseState(false, false, false, false, 0, 0)
  }

  /** A flicker timeout has been scheduled and has not fired yet. */
  predicate ResetPending(s: FuseState) {
    s.resetsFired < s.resetsScheduled
  }

  /** The invariant of every state reachable from `Mount()`. */
  predicate Consistent(s: FuseState) {
    && (s.effectSeenHit ==> s.isHit)
    && (!s.effectSeenHit ==> s.resetsScheduled == 0)
    && s.resetsScheduled <= 1
    && s.resetsFired <= s.resetsScheduled
    && (s.isFlickering <==> ResetPending(s))
  }

  /** Event `e` is the render in which the effect first sees the hit while the
      swing is still running, so the effect body takes its branch. */
  predicate FlickerStarts(s: FuseState, e: Event) {
    e == Commit && s.isHit && !s.effectSeenHit && !s.isSwingComplete
  }

  /** One event. */
  function Step(s: FuseState, e: Event): (t: FuseState)
    // isHit and isSwingComplete are only ever set to true
    ensures s.isHit ==> t.isHit
    ensures s.isSwingComplete ==> t.isSwingComplete
    // exactly one timeout is scheduled, and only when the flicker starts
    ensures t.resetsScheduled == s.resetsScheduled + (if FlickerStarts(s, e) then 1 else 0)
    ensures !s.isFlickering && t.isFlickering ==> FlickerStarts(s, e)
    // the timeout clears isFlickering and touches no other flag
    ensures e == ResetTimerFired ==>
      t.isHit == s.isHit && t.isSwingComplete == s.isSwingComplete && t.effectSeenHit == s.effectSeenHit
    ensures e == ResetTimerFired && ResetPending(s) ==> !t.isFlickering
    ensures Consistent(s) ==> Consistent(t)
  {
    match e
    case ProjectileLanded =>
      s.(isHit := true)
    case SwingFinished =>
      s.(isSwingComplete := true)
    case Commit =>
      if s.isHit == s.effectSeenHit then
        s
      else if s.isHit && !s.isSwingComplete then
        s.(effectSeenHit := s.isHit, isFlickering := true, resetsScheduled := s.resetsScheduled + 1)
      else
        s.(effectSeenHit := s.isHit)
    case ResetTimerFired =>
      if ResetPending(s) then
        s.(isFlickering := false, resetsFired := s.resetsFired + 1)
      else
        s
  }

  /** A sequence of events, in order. */
  function Run(s: FuseState, events: seq<Event>): FuseState
    decreases |events|
  {
    if events == [] then s else Run(Step(s, events[0]), events[1..])
  }

  // ---------------------------------------------------------------------------
  // Properties of every run
  // ---------------------------------------------------------------------------

  lemma {:induction false} RunKeepsConsistent(s: FuseState, events: seq<Event>)
    requires Consistent(s)
    ensures Consistent(Run(s, events))
    decreases |events|
  {
    if events != [] {
      RunKeepsConsistent(Step(s, events[0]), events[1..]);
    }
  }

  /** Whatever happens after mount, at most one flicker timeout is ever
      scheduled, and the bulb flickers exactly while it is pending. */
  lemma FlickerAtMostOncePerMount(events: seq<Event>)
    ensures Run(Mount(), events).resetsScheduled <= 1
    ensures Run(Mount(), events).isFlickering <==> ResetPending(Run(Mount(), events))
  {
    RunKeepsConsistent(Mount(), events);
  }

  /** Once set, `isHit` and `isSwingComplete` stay set. */
  lemma {:induction false} HitAndSwingStaySet(s: FuseState, events: seq<Event>)
    ensures s.isHit ==> Run(s, events).isHit
    ensures s.isSwingComplete ==> Run(s, events).isSwingComplete
    decreases |events|
  {
    if events != [] {
      HitAndSwingStaySet(Step(s, events[0]), events[1..]);
    }
  }

  /** The swing callback is unguarded: if it fires before the effect has seen
      the hit, the bulb never flickers at all. */
  lemma {:induction false} SwingFirstNeverFlickers(s: FuseState, events: seq<Event>)
    requires Consistent(s) && s.isSwingComplete && s.resetsScheduled == 0
    ensures Run(s, events).resetsScheduled == 0
    ensures !Run(s, events).isFlickering
    decreases |events|
  {
    if events != [] {
      SwingFirstNeverFlickers(Step(s, events[0]), events[1..]);
    }
  }

  /** Once the effect has run for the hit, further renders run no effect. */
  lemma CommitAfterHitChangesNothing(s: FuseState)
    requires Consistent(s) && s.effectSeenHit
    ensures Step(s, Commit) == s
  {
  }

  /** The lit, settled state: hit, swing done, flicker over. */
  predicate Settled(s: FuseState) {
    s.isHit && s.isSwingComplete && !s.isFlickering && s.effectSeenHit
  }

  /** The swing-complete event and the flicker timeout race. Whichever comes
      first, after both the state is the same, and it is settled. */
  lemma SwingAndResetCommute(s: FuseState)
    requires Consistent(s) && ResetPending(s)
    ensures Run(s, [SwingFinished, ResetTimerFired]) == Run(s, [ResetTimerFired, SwingFinished])
    ensures Settled(Run(s, [SwingFinished, ResetTimerFired]))
  {
  }

  /** Nothing moves a settled state any more. */
  lemma {:induction false} SettledIsFinal(s: FuseState, events: seq<Event>)
    requires Consistent(s) && Settled(s)
    ensures Run(s, events) == s
    decreases |events|
  {
    if events != [] {
      assert Step(s, events[0]) == s;
      SettledIsFinal(s, events[1..]);
    }
  }

  // ---------------------------------------------------------------------------
  // Render parameters: pure functions of the three flags
  // ---------------------------------------------------------------------------

  const Grey := "#4B5563"
  const Gold := "#FFD700"
  const White := "#FFFFFF"
  const HeadingShadow := "0 0 10px rgba(255,173,0,0.5), 0 0 20px rgba(255,173,0,0.3)"

  /** An animation target: one value, or a list of keyframes. */
  datatype Anim<T> = Fixed(value: T) | Keyframes(frames: seq<T>)

  /** Every value an animation target passes through. */
  function Frames<T>(a: Anim<T>): seq<T> {
    match a
    case Fixed(v) => [v]
    case Keyframes(f) => f
  }

  datatype Transition = Transition(durationMs: nat, repeat: nat)

  /** The bulb's animation target (opacity, colour, brightness) and transition. */
  datatype Bulb = Bulb(opacity: Anim<real>, color: Anim<string>, brightness: Anim<real>, transition: Transition)

  /** The glow behind the bulb, when present. */
  datatype Glow = Glow(opacity: Anim<real>, transition: Transition)

  /** The heading's colour and text shadow (`None` is "none"). */
  datatype Heading = Heading(color: string, textShadow: Option<string>)

  /** Everything the component draws that depends on its state. */
  datatype View = View(
    projectile: bool,
    pendulumSwinging: bool,
    bulb: Bulb,
    glow: Option<Glow>,
    heading: Heading)

  function FlickerTransition(isFlickering: bool): (t: Transition)
    ensures t.repeat > 0 <==> isFlickering
  {
    if isFlickering then Transition(500, 8) else Transition(300, 0)
  }

  function BulbFor(s: FuseState): (b: Bulb)
    ensures b.transition.repeat > 0 <==> s.isFlickering
    ensures b.color.Keyframes? <==> s.isFlickering
    ensures b.color == Fixed(Gold) <==> !s.isFlickering && s.isSwingComplete
    ensures b.color == Fixed(Grey) <==> !s.isFlickering && !s.isSwingComplete
    ensures b.brightness == Fixed(1.5) <==> !s.isFlickering && s.isSwingComplete
    ensures b.brightness == Fixed(1.0) <==> !s.isFlickering && !s.isSwingComplete
    // while flickering the colour alternates, starting grey
    ensures s.isFlickering ==>
      forall i :: 0 <= i < |Frames(b.color)| ==> Frames(b.color)[i] == (if i % 2 == 0 then Grey else Gold)
    ensures forall c :: c in Frames(b.color) ==> c == Grey || c == Gold
    ensures forall x :: x in Frames(b.brightness) ==> x == 1.0 || x == 1.5
    ensures forall x :: x in Frames(b.opacity) ==> 0.0 < x <= 1.0
    ensures |Frames(b.opacity)| > 0 && Frames(b.opacity)[0] == 1.0 && Frames(b.opacity)[|Frames(b.opacity)| - 1] == 1.0
  {
    if s.isFlickering then
      Bulb(Keyframes([1.0, 0.4, 1.0, 0.3, 1.0, 0.5, 1.0]),
           Keyframes([Grey, Gold, Grey, Gold, Grey, Gold]),
           Keyframes([1.0, 1.5, 1.0, 1.5]),
           FlickerTransition(true))
    else
      Bulb(Fixed(1.0),
           Fixed(if s.isSwingComplete then Gold else Grey),
           Fixed(if s.isSwingComplete then 1.5 else 1.0),
           FlickerTransition(false))
  }

  function GlowFor(s: FuseState): (g: Option<Glow>)
    ensures g.Some? <==> s.isFlickering || s.isSwingComplete
    ensures g.Some? ==> (g.value.transition.repeat > 0 <==> s.isFlickering)
    ensures g.Some? && !s.isFlickering ==> g.value.opacity == Fixed(0.7)
    ensures g.Some? ==> forall x :: x in Frames(g.value.opacity) ==> 0.0 < x <= 1.0
  {
    if s.isFlickering || s.isSwingComplete then
      Some(Glow(if s.isFlickering then Keyframes([0.3, 0.7, 0.4, 0.8, 0.5, 1.0]) else Fixed(0.7),
                FlickerTransition(s.isFlickering)))
    else
      None
  }

  function HeadingFor(s: FuseState): (h: Heading)
    ensures h.color == White <==> s.isSwingComplete
    ensures h.color == Grey <==> !s.isSwingComplete
    ensures h.textShadow.Some? <==> s.isSwingComplete
  {
    if s.isSwingComplete then Heading(White, Some(HeadingShadow)) else Heading(Grey, None)
  }

  function ViewOf(s: FuseState): (v: View)
    ensures v.projectile <==> !s.isHit
    ensures v.pendulumSwinging <==> s.isHit && !s.isSwingComplete
  {
    View(!s.isHit, s.isHit && !s.isSwingComplete, BulbFor(s), GlowFor(s), HeadingFor(s))
  }

  /** What is drawn depends on the three flags only, never on the runtime's
      bookkeeping. */
  lemma ViewDependsOnFlagsOnly(s: FuseState, t: FuseState)
    requires s.isHit == t.isHit && s.isSwingComplete == t.isSwingComplete && s.isFlickering == t.isFlickering
    ensures ViewOf(s) == ViewOf(t)
  {
  }

  /** At mount: the projectile flies, the pendulum hangs still, the bulb and
      the heading are grey and there is no glow. */
  lemma MountView()
    ensures var v := ViewOf(Mount());
      v.projectile && !v.pendulumSwinging && v.bulb.color == Fixed(Grey)
      && v.glow.None? && v.heading == Heading(Grey, None)
  {
  }

  /** Settled: the bulb is steadily gold at brightness 1.5 with the glow at
      0.7, the heading is white with its shadow, nothing else moves. */
  lemma SettledView(s: FuseState)
    requires Settled(s)
    ensures var v := ViewOf(s);
      !v.projectile && !v.pendulumSwinging
      && v.bulb.color == Fixed(Gold) && v.bulb.brightness == Fixed(1.5) && v.bulb.transition.repeat == 0
      && v.glow == Some(Glow(Fixed(0.7), Transition(300, 0)))
      && v.heading == Heading(White, Some(HeadingShadow))
  {
  }

  /** A flicker on screen always has its timeout pending, and that timeout
      stops it. */
  lemma FlickerAlwaysEnds(s: FuseState)
    requires Consistent(s) && ViewOf(s).bulb.transition.repeat > 0
    ensures ResetPending(s)
    ensures ViewOf(Step(s, ResetTimerFired)).bulb.transition.repeat == 0
    ensures ViewOf(Step(s, ResetTimerFired)).glow.Some? <==> s.isSwingComplete
  {
  }

  /** Once hit, the projectile is never drawn again, and once the swing is
      over the heading stays lit. */
  lemma {:induction false} ProjectileGoneHeadingLit(s: FuseState, events: seq<Event>)
    ensures s.isHit ==> !ViewOf(Run(s, events)).projectile
    ensures s.isSwingComplete ==> ViewOf(Run(s, events)).heading.color == White
  {
    HitAndSwingStaySet(s, events);
  }

  // ---------------------------------------------------------------------------
  // The pendulum's keyframe table
  // ---------------------------------------------------------------------------

  /** Rotation in degrees at each keyframe. */
  const PendulumRotate: seq<int> := [0, -45, 45, -30, 30, -15, 15, -5, 5, 0]

  /** Position of each keyframe in the swing, as a fraction of its duration. */
  const PendulumTimes: seq<real> := [0.0, 0.1, 0.3, 0.5, 0.6, 0.7, 0.8, 0.9, 0.95, 1.0]

  const PendulumDurationMs: nat := 4000

  function Abs(x: int): nat {
    if x < 0 then -x else x
  }

  /** The table is well formed and describes a damped swing: it starts and
      ends at rest, swings alternate side, and the amplitude never grows after
      the first swing. The swing lasts as long as the flicker timeout. */
  lemma PendulumTableDamped()
    ensures |PendulumRotate| == |PendulumTimes| == 10
    ensures PendulumTimes[0] == 0.0 && PendulumTimes[9] == 1.0
    ensures forall i, j :: 0 <= i < j < 10 ==> PendulumTimes[i] < PendulumTimes[j]
    ensures PendulumRotate[0] == 0 && PendulumRotate[9] == 0
    ensures forall i :: 1 <= i < 8 ==> PendulumRotate[i] * PendulumRotate[i + 1] < 0
    ensures forall i, j :: 1 <= i <= j < 10 ==> Abs(PendulumRotate[j]) <= Abs(PendulumRotate[i])
    ensures PendulumDurationMs == ResetDelayMs
  {
  }

  // ---------------------------------------------------------------------------
  // The component instance
  // ---------------------------------------------------------------------------

  /** A mounted `AnimatedFuseText`: the state hooks as fields, each callback a
      method. */
  class FuseText {
    var isHit: bool
    var isSwingComplete: bool
    var isFlickering: bool
    var effectSeenHit: bool
    var resetsScheduled: nat
    var resetsFired: nat

    function State(): FuseState
      reads this
    {
      FuseState(isHit, isSwingComplete, isFlickering, effectSeenHit, resetsScheduled, resetsFired)
    }

    ghost predicate Valid()
      reads this
    {
      Consistent(State())
    }

    /** Mount. */
    constructor ()
      ensures Valid() && State() == Mount()
    {
      isHit, isSwingComplete, isFlickering := false, false, false;
      effectSeenHit := false;
      resetsScheduled, resetsFired := 0, 0;
    }

    /** The projectile's animation completed. */
    method OnProjectileComplete()
      requires Valid()
      modifies this
      ensures Valid() && State() == Step(old(State()), ProjectileLanded)
      ensures isHit && isSwingComplete == old(isSwingComplete) && isFlickering == old(isFlickering)
    {
      isHit := true;
    }

    /** The pendulum's animation completed. */
    method OnSwingComplete()
      requires Valid()
      modifies this
      ensures Valid() && State() == Step(old(State()), SwingFinished)
      ensures isSwingComplete && isHit == old(isHit) && isFlickering == old(isFlickering)
    {
      isSwingComplete := true;
    }

    /** React re-renders; the `[isHit]` effect runs when `isHit` differs from
        the value it last ran with. */
    method CommitRender()
      requires Valid()
      modifies this
      ensures Valid() && State() == Step(old(State()), Commit)
      ensures isHit == old(isHit) && isSwingComplete == old(isSwingComplete)
      ensures isFlickering == (old(isFlickering) || FlickerStarts(old(State()), Commit))
    {
      if isHit != effectSeenHit {
        effectSeenHit := isHit;
        if isHit && !isSwingComplete {
          isFlickering := true;
          resetsScheduled := resetsScheduled + 1;
        }
      }
    }

    /** The flicker timeout fires; it can only fire once scheduled. */
    method OnResetTimer()
      requires Valid() && resetsFired < resetsScheduled
      modifies this
      ensures Valid() && State() == Step(old(State()), ResetTimerFired)
      ensures !isFlickering && isHit == old(isHit) && isSwingComplete == old(isSwingComplete)
    {
      isFlickering := false;
      resetsFired := resetsFired + 1;
    }
  }
}
