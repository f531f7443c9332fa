/** The BOOT button: what a press means when its contact bounces (esp32/main/button/button_logic.c). */
module Button {
  import opened OtaTypes

  const BUTTON_AP_HOLD_MS := 3000
  const BUTTON_RESET_HOLD_MS := 10000
  const BUTTON_RELEASE_DEBOUNCE_MS := 300
  const TWO_32: nat := 0x1_0000_0000

  datatype Action = NoAction | ToggleAp | FactoryReset
  datatype Feedback = NoFeedback | ApArmed | Reset

  /** One poll: the level of the pin and the time since the poll before. */
  datatype Sample = Sample(pressed: bool, elapsed: UInt32)

  // ---------------------------------------------------------------- what the firmware counts

  datatype Counters = Counters(held: UInt32, released: UInt32, fired: bool)

  const IDLE := Counters(0, 0, false)

  /** Addition of two uint32_t. */
  function Add(a: int, b: int): UInt32 {
    (a + b) % TWO_32
  }

  function Held(c: Counters, elapsed: UInt32): UInt32 {
    var bridged := if c.held > 0 then c.released else 0;
    var held := Add(Add(c.held, bridged), elapsed);
    if held < c.held then UINT32_MAX else held
  }

  function Update(c: Counters, s: Sample): (Counters, Action) {
    if s.pressed then
      var held := Held(c, s.elapsed);
      var reset := !c.fired && held >= BUTTON_RESET_HOLD_MS;
      (Counters(held, 0, c.fired || reset), if reset then FactoryReset else NoAction)
    else if c.held == 0 then (c, NoAction)
    else
      var released := Add(c.released, s.elapsed);
      if released < BUTTON_RELEASE_DEBOUNCE_MS then (c.(released := released), NoAction)
      else (IDLE, if !c.fired && c.held >= BUTTON_AP_HOLD_MS then ToggleAp else NoAction)
  }

  function FeedbackOf(c: Counters, s: Sample): Feedback {
    var after := Update(c, s).0;
    if !s.pressed then NoFeedback
    else if after.fired then Reset
    else if after.held >= BUTTON_AP_HOLD_MS then ApArmed
    else NoFeedback
  }

  class ButtonState {
    var heldMs: UInt32
    var releasedMs: UInt32
    var resetFired: bool

    ghost function View(): Counters
      reads this
    {
      Counters(heldMs, releasedMs, resetFired)
    }

    constructor ()
      ensures View() == IDLE
    {
      heldMs, releasedMs, resetFired := 0, 0, false;
    }

    method Poll(pressed: bool, elapsed: UInt32) returns (action: Action, feedback: Feedback)
      modifies this
      ensures (View(), action) == Update(old(View()), Sample(pressed, elapsed))
      ensures feedback == FeedbackOf(old(View()), Sample(pressed, elapsed))
    {
      action, feedback := NoAction, NoFeedback;
      if pressed {
        var bridged := if heldMs > 0 then releasedMs else 0;
        releasedMs := 0;
        var held := Add(Add(heldMs, bridged), elapsed);
        heldMs := if held < heldMs then UINT32_MAX else held;
        if !resetFired && heldMs >= BUTTON_RESET_HOLD_MS {
          resetFired := true;
          action := FactoryReset;
        }
        feedback := if resetFired then Reset else if heldMs >= BUTTON_AP_HOLD_MS then ApArmed else NoFeedback;
        return;
      }
      if heldMs == 0 {
        return;
      }
      releasedMs := Add(releasedMs, elapsed);
      if releasedMs < BUTTON_RELEASE_DEBOUNCE_MS {
        return;
      }
      if !resetFired && heldMs >= BUTTON_AP_HOLD_MS {
        action := ToggleAp;
      }
      heldMs, releasedMs, resetFired := 0, 0, false;
    }
  }

  // ---------------------------------------------------------------- sequences of polls

  /** One poll of a machine whose state is an S, at a time when the clock showed `now` before it. */
  type Machine<!S> = (S, Sample, nat) -> (S, Action)

  function Actions<S>(f: Machine<S>, state: S, ss: seq<Sample>, now: nat): seq<Action>
    decreases |ss|
  {
    if ss == [] then []
    else var r := f(state, ss[0], now); [r.1] + Actions(f, r.0, ss[1..], now + ss[0].elapsed)
  }

  function After<S>(f: Machine<S>, state: S, ss: seq<Sample>, now: nat): S
    decreases |ss|
  {
    if ss == [] then state else After(f, f(state, ss[0], now).0, ss[1..], now + ss[0].elapsed)
  }

  function Elapsed(ss: seq<Sample>): nat {
    if ss == [] then 0 else ss[0].elapsed + Elapsed(ss[1..])
  }

  lemma ThenMore(ss: seq<Sample>, more: seq<Sample>)
    requires ss != []
    ensures ss + more != [] && (ss + more)[0] == ss[0] && (ss + more)[1..] == ss[1..] + more
  {
  }

  lemma {:induction false} StateAfterBoth<S>(f: Machine<S>, state: S, ss: seq<Sample>, more: seq<Sample>, now: nat)
    ensures After(f, state, ss + more, now) == After(f, After(f, state, ss, now), more, now + Elapsed(ss))
    decreases |ss|
  {
    if ss == [] {
      assert ss + more == more;
    } else {
      ThenMore(ss, more);
      StateAfterBoth(f, f(state, ss[0], now).0, ss[1..], more, now + ss[0].elapsed);
    }
  }

  lemma {:induction false} ActionsOfBoth<S>(f: Machine<S>, state: S, ss: seq<Sample>, more: seq<Sample>, now: nat)
    ensures Actions(f, state, ss + more, now)
            == Actions(f, state, ss, now) + Actions(f, After(f, state, ss, now), more, now + Elapsed(ss))
    decreases |ss|
  {
    if ss == [] {
      assert ss + more == more;
    } else {
      ThenMore(ss, more);
      ActionsOfBoth(f, f(state, ss[0], now).0, ss[1..], more, now + ss[0].elapsed);
    }
  }

  lemma Concatenated<S>(f: Machine<S>, state: S, ss: seq<Sample>, more: seq<Sample>, now: nat)
    ensures Actions(f, state, ss + more, now)
            == Actions(f, state, ss, now) + Actions(f, After(f, state, ss, now), more, now + Elapsed(ss))
    ensures After(f, state, ss + more, now) == After(f, After(f, state, ss, now), more, now + Elapsed(ss))
  {
    ActionsOfBoth(f, state, ss, more, now);
    StateAfterBoth(f, state, ss, more, now);
  }

  lemma {:induction false} OneActionEach<S>(f: Machine<S>, state: S, ss: seq<Sample>, now: nat)
    ensures |Actions(f, state, ss, now)| == |ss|
    decreases |ss|
  {
    if ss != [] {
      OneActionEach(f, f(state, ss[0], now).0, ss[1..], now + ss[0].elapsed);
    }
  }

  lemma One<S>(f: Machine<S>, state: S, s: Sample, now: nat)
    ensures Actions(f, state, [s], now) == [f(state, s, now).1]
    ensures After(f, state, [s], now) == f(state, s, now).0 && Elapsed([s]) == s.elapsed
  {
    assert [s][1..] == [];
  }

  function Counting(c: Counters, s: Sample, now: nat): (Counters, Action) {
    Update(c, s)
  }

  // ---------------------------------------------------------------- what a press is

  /**
   A press seen on an unbounded clock: it began at `start` and the button was last seen down at `last`.
   Nothing is counted, bridged or saturated here.
   */
  datatype Press = NoPress | Press(start: nat, last: nat)

  function Span(p: Press): nat {
    if p.NoPress? || p.last < p.start then 0 else p.last - p.start
  }

  /** The press after a poll, and what the device is to do. */
  function Meaning(p: Press, s: Sample, before: nat): (Press, Action) {
    var now := before + s.elapsed;
    if s.pressed then
      var after := if p.Press? then p.(last := now) else if s.elapsed > 0 then Press(before, now) else NoPress;
      (after, if Span(p) < BUTTON_RESET_HOLD_MS <= Span(after) then FactoryReset else NoAction)
    else if p.NoPress? || now < p.last + BUTTON_RELEASE_DEBOUNCE_MS then (p, NoAction)
    else (NoPress, if BUTTON_AP_HOLD_MS <= Span(p) < BUTTON_RESET_HOLD_MS then ToggleAp else NoAction)
  }

  /** The counters say what the clock says. */
  predicate Agrees(c: Counters, p: Press, now: nat) {
    if p.NoPress? then c == IDLE
    else
      && p.start < p.last <= now
      && c.held == (if Span(p) <= UINT32_MAX then Span(p) else UINT32_MAX)
      && c.released == now - p.last < BUTTON_RELEASE_DEBOUNCE_MS
      && (c.fired <==> Span(p) >= BUTTON_RESET_HOLD_MS)
  }

  const LONGEST_POLL: nat := TWO_32 - BUTTON_RELEASE_DEBOUNCE_MS

  /** A sum that passes 2^32 - 1 once is seen to wrap around. */
  lemma HeldSaturates(c: Counters, elapsed: UInt32)
    requires c.released < BUTTON_RELEASE_DEBOUNCE_MS && elapsed <= LONGEST_POLL
    ensures var sum := c.held + (if c.held > 0 then c.released else 0) + elapsed;
            Held(c, elapsed) == if sum <= UINT32_MAX then sum else UINT32_MAX
  {
    var bridged := if c.held > 0 then c.released else 0;
    var sum := c.held + bridged;
    assert Add(c.held, bridged) == if sum < TWO_32 then sum else sum - TWO_32;
    var all := Add(c.held, bridged) + elapsed;
    assert Add(Add(c.held, bridged), elapsed) == if all < TWO_32 then all else all - TWO_32;
  }

  lemma OnePoll(c: Counters, p: Press, s: Sample, now: nat)
    requires Agrees(c, p, now) && s.elapsed <= LONGEST_POLL
    ensures Update(c, s).1 == Meaning(p, s, now).1
    ensures Agrees(Update(c, s).0, Meaning(p, s, now).0, now + s.elapsed)
  {
    if s.pressed {
      HeldSaturates(c, s.elapsed);
    } else {
      assert Add(c.released, s.elapsed) == c.released + s.elapsed;
    }
  }

  /** The light while the button is down: for how long it has been held, bounces counted in. */
  lemma FeedbackTellsTheSpan(c: Counters, p: Press, s: Sample, now: nat)
    requires Agrees(c, p, now) && s.elapsed <= LONGEST_POLL
    ensures var held := Span(Meaning(p, s, now).0);
            FeedbackOf(c, s) ==
            if !s.pressed || held < 3000 then NoFeedback else if held < 10000 then ApArmed else Reset
  {
    OnePoll(c, p, s, now);
  }

  lemma {:induction false} PollByPoll(c: Counters, p: Press, ss: seq<Sample>, now: nat)
    requires Agrees(c, p, now) && forall i :: 0 <= i < |ss| ==> ss[i].elapsed <= LONGEST_POLL
    ensures Actions(Counting, c, ss, now) == Actions(Meaning, p, ss, now)
    decreases |ss|
  {
    if ss != [] {
      OnePoll(c, p, ss[0], now);
      PollByPoll(Counting(c, ss[0], now).0, Meaning(p, ss[0], now).0, ss[1..], now + ss[0].elapsed);
    }
  }

  /** For polls of at most `longest` ms the counters always act as the clock says. */
  ghost predicate AlwaysRight(longest: UInt32) {
    forall ss: seq<Sample> :: (forall i :: 0 <= i < |ss| ==> ss[i].elapsed <= longest) ==>
      Actions(Counting, IDLE, ss, 0) == Actions(Meaning, NoPress, ss, 0)
  }

  function LostHold(elapsed: UInt32): seq<Sample> {
    [Sample(true, 1)] + ([Sample(false, BUTTON_RELEASE_DEBOUNCE_MS - 1)] + [Sample(true, elapsed)])
  }

  lemma Three<S>(f: Machine<S>, state: S, a: Sample, b: Sample, c: Sample, now: nat)
    ensures var u := f(state, a, now);
            var v := f(u.0, b, now + a.elapsed);
            Actions(f, state, [a] + ([b] + [c]), now) == [u.1, v.1, f(v.0, c, now + a.elapsed + b.elapsed).1]
  {
    One(f, state, a, now);
    Concatenated(f, state, [a], [b] + [c], now);
    var u := f(state, a, now);
    One(f, u.0, b, now + a.elapsed);
    Concatenated(f, u.0, [b], [c], now + a.elapsed);
    One(f, f(u.0, b, now + a.elapsed).0, c, now + a.elapsed + b.elapsed);
  }

  /** Past that the sum wraps around unseen: the button is down for longer than the reset takes, and nothing happens. */
  lemma LongerPollsLoseTheHold(elapsed: UInt32)
    requires elapsed > LONGEST_POLL
    ensures Actions(Counting, IDLE, LostHold(elapsed), 0) == [NoAction, NoAction, NoAction]
    ensures Actions(Meaning, NoPress, LostHold(elapsed), 0) == [NoAction, NoAction, FactoryReset]
  {
    Three(Counting, IDLE, Sample(true, 1), Sample(false, BUTTON_RELEASE_DEBOUNCE_MS - 1), Sample(true, elapsed), 0);
    Three(Meaning, NoPress, Sample(true, 1), Sample(false, BUTTON_RELEASE_DEBOUNCE_MS - 1), Sample(true, elapsed), 0);
  }

  /** Saturation never changes an outcome, and that is so exactly for polls of at most 2^32 - 300 ms. */
  lemma RightExactlyUpTo(longest: UInt32)
    ensures AlwaysRight(longest) <==> longest <= 0x1_0000_0000 - 300
  {
    if longest <= LONGEST_POLL {
      forall ss: seq<Sample> | forall i :: 0 <= i < |ss| ==> ss[i].elapsed <= longest
        ensures Actions(Counting, IDLE, ss, 0) == Actions(Meaning, NoPress, ss, 0)
      {
        PollByPoll(IDLE, NoPress, ss, 0);
      }
    } else {
      LongerPollsLoseTheHold(longest);
      assert [NoAction, NoAction, NoAction][2] != [NoAction, NoAction, FactoryReset][2];
      assert Actions(Counting, IDLE, LostHold(longest), 0) != Actions(Meaning, NoPress, LostHold(longest), 0);
    }
  }

  // ---------------------------------------------------------------- one press, one outcome

  lemma {:induction false} LastElapsed(ss: seq<Sample>)
    requires ss != []
    ensures Elapsed(ss) == Elapsed(ss[..|ss| - 1]) + ss[|ss| - 1].elapsed
    decreases |ss|
  {
    if |ss| > 1 {
      LastElapsed(ss[1..]);
      assert ss[..|ss| - 1][1..] == ss[1..][..|ss[1..]| - 1];
    }
  }

  /** How long the polls since the last one that saw the button down have taken. */
  function UpFor(ss: seq<Sample>): (up: nat)
    ensures up <= Elapsed(ss)
  {
    if ss == [] || ss[|ss| - 1].pressed then 0
    else LastElapsed(ss); UpFor(ss[..|ss| - 1]) + ss[|ss| - 1].elapsed
  }

  /** From the poll in which the button goes down to the end of the last one that saw it down. */
  function HeldFor(ss: seq<Sample>): nat {
    Elapsed(ss) - UpFor(ss)
  }

  /** The polls of a press that is not over: it begins with the button down and no release lasted. */
  predicate OngoingPress(ss: seq<Sample>) {
    && ss != [] && ss[0].pressed && ss[0].elapsed > 0
    && forall n :: 0 < n <= |ss| ==> UpFor(ss[..n]) < BUTTON_RELEASE_DEBOUNCE_MS
  }

  lemma OneMore(ss: seq<Sample>, s: Sample, now: nat)
    ensures var m := Meaning(After(Meaning, NoPress, ss, now), s, now + Elapsed(ss));
            && Actions(Meaning, NoPress, ss + [s], now) == Actions(Meaning, NoPress, ss, now) + [m.1]
            && After(Meaning, NoPress, ss + [s], now) == m.0
    ensures |Actions(Meaning, NoPress, ss, now)| == |ss|
  {
    Concatenated(Meaning, NoPress, ss, [s], now);
    One(Meaning, After(Meaning, NoPress, ss, now), s, now + Elapsed(ss));
    OneActionEach(Meaning, NoPress, ss, now);
  }

  /** Poll `k` is the one in which the press has lasted ten seconds. */
  predicate LastsTenSecondsAt(ss: seq<Sample>, k: nat)
    requires k < |ss|
  {
    HeldFor(ss[..k]) < BUTTON_RESET_HOLD_MS <= HeldFor(ss[..k + 1])
  }

  /** What a press does while it goes on: one reset, at the poll in which it has lasted ten seconds. */
  predicate ResetsOnce(ss: seq<Sample>, actions: seq<Action>) {
    && |actions| == |ss|
    && forall k :: 0 <= k < |ss| ==> actions[k] == if LastsTenSecondsAt(ss, k) then FactoryReset else NoAction
  }

  lemma HeldForOneMore(ss: seq<Sample>, s: Sample)
    ensures HeldFor(ss + [s]) == if s.pressed then Elapsed(ss) + s.elapsed else HeldFor(ss)
    ensures UpFor(ss + [s]) == if s.pressed then 0 else UpFor(ss) + s.elapsed
    ensures Elapsed(ss + [s]) == Elapsed(ss) + s.elapsed
  {
    assert (ss + [s])[..|ss|] == ss;
    LastElapsed(ss + [s]);
  }

  lemma ResetsOnceExtends(ss: seq<Sample>, actions: seq<Action>, s: Sample, a: Action)
    requires ResetsOnce(ss, actions)
    requires a == if HeldFor(ss) < BUTTON_RESET_HOLD_MS <= HeldFor(ss + [s]) then FactoryReset else NoAction
    ensures ResetsOnce(ss + [s], actions + [a])
  {
    var all := ss + [s];
    assert ss[..|ss|] == ss && all[..|ss|] == ss && all[..|ss| + 1] == all;
    forall k | 0 <= k < |ss|
      ensures LastsTenSecondsAt(all, k) == LastsTenSecondsAt(ss, k)
    {
      assert all[..k] == ss[..k] && all[..k + 1] == ss[..k + 1];
    }
  }

  /** The polls `ss` are the beginning of a press, or nothing yet. */
  predicate GoesOn(ss: seq<Sample>, now: nat) {
    && After(Meaning, NoPress, ss, now) == (if ss == [] then NoPress else Press(now, now + HeldFor(ss)))
    && (ss != [] ==> HeldFor(ss) > 0)
    && ResetsOnce(ss, Actions(Meaning, NoPress, ss, now))
  }

  lemma GoesOnWith(ss: seq<Sample>, s: Sample, now: nat)
    requires GoesOn(ss, now) && UpFor(ss + [s]) < BUTTON_RELEASE_DEBOUNCE_MS
    requires ss == [] ==> s.pressed && s.elapsed > 0
    ensures GoesOn(ss + [s], now)
  {
    OneMore(ss, s, now);
    HeldForOneMore(ss, s);
    var m := Meaning(After(Meaning, NoPress, ss, now), s, now + Elapsed(ss));
    ResetsOnceExtends(ss, Actions(Meaning, NoPress, ss, now), s, m.1);
  }

  lemma {:induction false} WhileItGoesOn(ss: seq<Sample>, now: nat)
    requires OngoingPress(ss)
    ensures After(Meaning, NoPress, ss, now) == Press(now, now + HeldFor(ss)) && HeldFor(ss) > 0
    ensures ResetsOnce(ss, Actions(Meaning, NoPress, ss, now))
    decreases |ss|
  {
    var n := |ss| - 1;
    assert ss[..n] + [ss[n]] == ss == ss[..n + 1];
    if n > 0 {
      assert forall k :: 0 < k <= n ==> ss[..n][..k] == ss[..k];
      WhileItGoesOn(ss[..n], now);
    }
    GoesOnWith(ss[..n], ss[n], now);
  }

  lemma {:induction false} HeldForGrows(ss: seq<Sample>, a: nat, b: nat)
    requires a <= b <= |ss|
    ensures HeldFor(ss[..a]) <= HeldFor(ss[..b])
    decreases b - a
  {
    if a < b {
      HeldForGrows(ss, a, b - 1);
      assert ss[..b] == ss[..b - 1] + [ss[b - 1]];
      HeldForOneMore(ss[..b - 1], ss[b - 1]);
    }
  }

  /** The poll at which the press has lasted ten seconds. */
  lemma {:induction false} ResetPoll(ss: seq<Sample>, n: nat) returns (k: nat)
    requires n <= |ss| && HeldFor(ss[..n]) >= BUTTON_RESET_HOLD_MS
    ensures k < n && LastsTenSecondsAt(ss, k)
    decreases n
  {
    assert ss[..0] == [] && HeldFor(ss[..0]) == 0;
    if HeldFor(ss[..n - 1]) < BUTTON_RESET_HOLD_MS {
      k := n - 1;
    } else {
      k := ResetPoll(ss, n - 1);
    }
  }

  function Quiet(n: nat): seq<Action> {
    seq(n, _ => NoAction)
  }

  /** The actions of a press and its release: at most one, fixed by how long the press lasted. */
  predicate OneOutcome(ss: seq<Sample>, actions: seq<Action>, resetAt: nat) {
    if HeldFor(ss) < BUTTON_AP_HOLD_MS then actions == Quiet(|ss| + 1)
    else if HeldFor(ss) < BUTTON_RESET_HOLD_MS then actions == Quiet(|ss|) + [ToggleAp]
    else resetAt < |ss| && ss[resetAt].pressed && actions == Quiet(|ss| + 1)[resetAt := FactoryReset]
  }

  /**
   A press has exactly one outcome, decided by how long it lasted with its bounces counted in: nothing
   below three seconds, the access point toggled at its release below ten, and otherwise the reset, once
   and while the button is still down.
   */
  lemma OnePressOneOutcome(ss: seq<Sample>, release: Sample, now: nat) returns (resetAt: nat)
    requires OngoingPress(ss) && !release.pressed && UpFor(ss + [release]) >= BUTTON_RELEASE_DEBOUNCE_MS
    ensures After(Meaning, NoPress, ss + [release], now) == NoPress
    ensures OneOutcome(ss, Actions(Meaning, NoPress, ss + [release], now), resetAt)
  {
    WhileItGoesOn(ss, now);
    OneMore(ss, release, now);
    HeldForOneMore(ss, release);
    assert now + Elapsed(ss) == now + HeldFor(ss) + UpFor(ss);
    ReleaseEndsIt(now, HeldFor(ss), UpFor(ss), release);
    resetAt := OutcomeOf(ss, Actions(Meaning, NoPress, ss, now));
  }

  lemma OutcomeOf(ss: seq<Sample>, during: seq<Action>) returns (resetAt: nat)
    requires ResetsOnce(ss, during)
    ensures OneOutcome(ss, during + [ReleaseAction(HeldFor(ss))], resetAt)
  {
    resetAt := 0;
    if HeldFor(ss) < BUTTON_RESET_HOLD_MS {
      NoResetBefore(ss, during);
      QuietThenQuiet(|ss|);
    } else {
      assert ss[..|ss|] == ss;
      resetAt := ResetPoll(ss, |ss|);
      OneReset(ss, during, resetAt);
      ResetThenQuiet(|ss|, resetAt);
    }
  }

  function ReleaseAction(held: nat): Action {
    if BUTTON_AP_HOLD_MS <= held < BUTTON_RESET_HOLD_MS then ToggleAp else NoAction
  }

  lemma ReleaseEndsIt(start: nat, held: nat, up: nat, release: Sample)
    requires held > 0 && !release.pressed && up + release.elapsed >= BUTTON_RELEASE_DEBOUNCE_MS
    ensures Meaning(Press(start, start + held), release, start + held + up)
            == (NoPress, ReleaseAction(held))
  {
  }

  lemma QuietThenQuiet(n: nat)
    ensures Quiet(n) + [NoAction] == Quiet(n + 1)
  {
  }

  lemma ResetThenQuiet(n: nat, k: nat)
    requires k < n
    ensures Quiet(n)[k := FactoryReset] + [NoAction] == Quiet(n + 1)[k := FactoryReset]
  {
  }

  lemma NoResetBefore(ss: seq<Sample>, actions: seq<Action>)
    requires ResetsOnce(ss, actions) && HeldFor(ss) < BUTTON_RESET_HOLD_MS
    ensures actions == Quiet(|ss|)
  {
    assert ss[..|ss|] == ss;
    forall k | 0 <= k < |ss|
      ensures actions[k] == NoAction
    {
      HeldForGrows(ss, k + 1, |ss|);
    }
  }

  lemma OneReset(ss: seq<Sample>, actions: seq<Action>, at: nat)
    requires ResetsOnce(ss, actions) && at < |ss| && LastsTenSecondsAt(ss, at)
    ensures actions == Quiet(|ss|)[at := FactoryReset] && ss[at].pressed
  {
    assert ss[at].pressed by {
      assert ss[..at + 1] == ss[..at] + [ss[at]];
      HeldForOneMore(ss[..at], ss[at]);
    }
    forall k | 0 <= k < |ss| && k != at
      ensures actions[k] == NoAction
    {
      NoOtherReset(ss, at, k);
    }
  }

  lemma NoOtherReset(ss: seq<Sample>, at: nat, k: nat)
    requires at < |ss| && k < |ss| && k != at
    requires LastsTenSecondsAt(ss, at)
    ensures !LastsTenSecondsAt(ss, k)
  {
    if k < at {
      HeldForGrows(ss, k + 1, at);
    } else {
      HeldForGrows(ss, at + 1, k);
    }
  }

  /** Between presses nothing happens. */
  lemma {:induction false} NothingBetweenPresses(ss: seq<Sample>, now: nat)
    requires forall k :: 0 <= k < |ss| ==> !ss[k].pressed || ss[k].elapsed == 0
    ensures Actions(Meaning, NoPress, ss, now) == Quiet(|ss|) && After(Meaning, NoPress, ss, now) == NoPress
    decreases |ss|
  {
    if ss != [] {
      NothingBetweenPresses(ss[1..], now + ss[0].elapsed);
      assert Quiet(|ss|) == [NoAction] + Quiet(|ss| - 1);
    }
  }

  // ---------------------------------------------------------------- any sequence of polls

  /** A stretch of polls: nothing but the button up, or a press with the poll that ends it. */
  datatype Stretch = Up(ss: seq<Sample>) | Down(ss: seq<Sample>, release: Sample)

  predicate IsStretch(x: Stretch) {
    match x
    case Up(ss) => forall k :: 0 <= k < |ss| ==> !ss[k].pressed || ss[k].elapsed == 0
    case Down(ss, release) =>
      OngoingPress(ss) && !release.pressed && UpFor(ss + [release]) >= BUTTON_RELEASE_DEBOUNCE_MS
  }

  predicate AreStretches(xs: seq<Stretch>) {
    forall i :: 0 <= i < |xs| ==> IsStretch(xs[i])
  }

  /** Nothing, or a press that is not over. */
  predicate Unfinished(tail: seq<Sample>) {
    tail == [] || OngoingPress(tail)
  }

  function PollsOf(x: Stretch): seq<Sample> {
    match x
    case Up(ss) => ss
    case Down(ss, release) => ss + [release]
  }

  function Polls(xs: seq<Stretch>): seq<Sample> {
    if xs == [] then [] else Polls(xs[..|xs| - 1]) + PollsOf(xs[|xs| - 1])
  }

  /** The poll in which a press of at least ten seconds has lasted that long. */
  function ResetIndex(ss: seq<Sample>): (k: nat)
    requires HeldFor(ss) >= BUTTON_RESET_HOLD_MS
    ensures k < |ss|
  {
    if HeldFor(ss[..|ss| - 1]) >= BUTTON_RESET_HOLD_MS then ResetIndex(ss[..|ss| - 1]) else |ss| - 1
  }

  /** What a press does while the button is down: nothing before ten seconds, and then one reset. */
  function During(ss: seq<Sample>): seq<Action> {
    if HeldFor(ss) < BUTTON_RESET_HOLD_MS then Quiet(|ss|) else Quiet(|ss|)[ResetIndex(ss) := FactoryReset]
  }

  /** What a stretch does: nothing while the button is up, and one outcome for each press. */
  function Outcome(x: Stretch): seq<Action> {
    match x
    case Up(ss) => Quiet(|ss|)
    case Down(ss, _) => During(ss) + [ReleaseAction(HeldFor(ss))]
  }

  function Outcomes(xs: seq<Stretch>): seq<Action> {
    if xs == [] then [] else Outcomes(xs[..|xs| - 1]) + Outcome(xs[|xs| - 1])
  }

  lemma {:induction false} ResetIndexIsThePoll(ss: seq<Sample>)
    requires HeldFor(ss) >= BUTTON_RESET_HOLD_MS
    ensures LastsTenSecondsAt(ss, ResetIndex(ss))
    decreases |ss|
  {
    var n := |ss| - 1;
    assert ss[..n + 1] == ss;
    if HeldFor(ss[..n]) >= BUTTON_RESET_HOLD_MS {
      var k := ResetIndex(ss[..n]);
      ResetIndexIsThePoll(ss[..n]);
      assert ss[..n][..k] == ss[..k] && ss[..n][..k + 1] == ss[..k + 1];
    }
  }

  lemma PressDoes(ss: seq<Sample>, now: nat)
    requires OngoingPress(ss)
    ensures Actions(Meaning, NoPress, ss, now) == During(ss)
  {
    WhileItGoesOn(ss, now);
    if HeldFor(ss) < BUTTON_RESET_HOLD_MS {
      NoResetBefore(ss, Actions(Meaning, NoPress, ss, now));
    } else {
      ResetIndexIsThePoll(ss);
      OneReset(ss, Actions(Meaning, NoPress, ss, now), ResetIndex(ss));
    }
  }

  lemma StretchDoes(x: Stretch, now: nat)
    requires IsStretch(x)
    ensures Actions(Meaning, NoPress, PollsOf(x), now) == Outcome(x) && After(Meaning, NoPress, PollsOf(x), now) == NoPress
  {
    match x {
      case Up(ss) => NothingBetweenPresses(ss, now);
      case Down(ss, release) =>
        WhileItGoesOn(ss, now);
        PressDoes(ss, now);
        OneMore(ss, release, now);
        HeldForOneMore(ss, release);
        assert now + Elapsed(ss) == now + HeldFor(ss) + UpFor(ss);
        ReleaseEndsIt(now, HeldFor(ss), UpFor(ss), release);
    }
  }

  /** `ss` does `actions` from a released button and leaves it released. */
  predicate Does(ss: seq<Sample>, now: nat, actions: seq<Action>) {
    Actions(Meaning, NoPress, ss, now) == actions && After(Meaning, NoPress, ss, now) == NoPress
  }

  lemma DoesBoth(ss: seq<Sample>, more: seq<Sample>, now: nat, a: seq<Action>, b: seq<Action>)
    requires Does(ss, now, a) && Does(more, now + Elapsed(ss), b)
    ensures Does(ss + more, now, a + b)
  {
    Concatenated(Meaning, NoPress, ss, more, now);
  }

  lemma {:induction false} StretchesDo(xs: seq<Stretch>, now: nat)
    requires AreStretches(xs)
    ensures Does(Polls(xs), now, Outcomes(xs))
    decreases |xs|
  {
    if xs != [] {
      var before, x := xs[..|xs| - 1], xs[|xs| - 1];
      StretchesDo(before, now);
      StretchDoes(x, now + Elapsed(Polls(before)));
      DoesBoth(Polls(before), PollsOf(x), now, Outcomes(before), Outcome(x));
    }
  }

  lemma OneStretchMore(xs: seq<Stretch>, x: Stretch)
    requires AreStretches(xs) && IsStretch(x)
    ensures AreStretches(xs + [x]) && Polls(xs + [x]) == Polls(xs) + PollsOf(x)
  {
    assert (xs + [x])[..|xs|] == xs;
  }

  lemma PressGoesOn(tail: seq<Sample>, s: Sample)
    requires OngoingPress(tail) && UpFor(tail + [s]) < BUTTON_RELEASE_DEBOUNCE_MS
    ensures OngoingPress(tail + [s])
  {
    var all := tail + [s];
    assert forall n :: 0 < n <= |tail| ==> all[..n] == tail[..n];
    assert all[..|all|] == all;
  }

  lemma PressBegins(s: Sample)
    requires s.pressed && s.elapsed > 0
    ensures OngoingPress([s])
  {
    assert [s][..1] == [s];
  }

  lemma UpAfterDown(tail: seq<Sample>, s: Sample)
    requires s.pressed
    ensures UpFor(tail + [s]) == 0
  {
  }

  predicate SplitsInto(ss: seq<Sample>, xs: seq<Stretch>, tail: seq<Sample>) {
    AreStretches(xs) && Unfinished(tail) && ss == Polls(xs) + tail
  }

  lemma StretchEnds(ss: seq<Sample>, xs: seq<Stretch>, tail: seq<Sample>, s: Sample, x: Stretch)
    requires SplitsInto(ss, xs, tail) && IsStretch(x) && PollsOf(x) == tail + [s]
    ensures SplitsInto(ss + [s], xs + [x], [])
  {
    OneStretchMore(xs, x);
    assert ss + [s] == Polls(xs) + (tail + [s]) + [];
  }

  lemma TailGrows(ss: seq<Sample>, xs: seq<Stretch>, tail: seq<Sample>, s: Sample)
    requires SplitsInto(ss, xs, tail) && OngoingPress(tail + [s])
    ensures SplitsInto(ss + [s], xs, tail + [s])
  {
    assert ss + [s] == Polls(xs) + (tail + [s]);
  }

  lemma OnePollMore(ss: seq<Sample>, xs: seq<Stretch>, tail: seq<Sample>, s: Sample)
    returns (xs': seq<Stretch>, tail': seq<Sample>)
    requires SplitsInto(ss, xs, tail)
    ensures SplitsInto(ss + [s], xs', tail')
  {
    if tail == [] {
      assert tail + [s] == [s];
      if s.pressed && s.elapsed > 0 {
        PressBegins(s);
        TailGrows(ss, xs, tail, s);
        return xs, [s];
      }
      StretchEnds(ss, xs, tail, s, Up([s]));
      return xs + [Up([s])], [];
    }
    if !s.pressed && UpFor(tail + [s]) >= BUTTON_RELEASE_DEBOUNCE_MS {
      StretchEnds(ss, xs, tail, s, Down(tail, s));
      return xs + [Down(tail, s)], [];
    }
    if s.pressed {
      UpAfterDown(tail, s);
    }
    PressGoesOn(tail, s);
    TailGrows(ss, xs, tail, s);
    return xs, tail + [s];
  }

  /** Any polls are stretches with the button up and presses in turn, and a press at most that is not over. */
  lemma {:induction false} EverySequenceSplits(ss: seq<Sample>) returns (xs: seq<Stretch>, tail: seq<Sample>)
    ensures SplitsInto(ss, xs, tail)
    decreases |ss|
  {
    if ss == [] {
      return [], [];
    }
    xs, tail := EverySequenceSplits(ss[..|ss| - 1]);
    xs, tail := OnePollMore(ss[..|ss| - 1], xs, tail, ss[|ss| - 1]);
    assert ss[..|ss| - 1] + [ss[|ss| - 1]] == ss;
  }

  lemma UnfinishedDoes(tail: seq<Sample>, now: nat)
    requires Unfinished(tail)
    ensures Acts(tail, now, During(tail))
  {
    if tail != [] {
      PressDoes(tail, now);
    }
  }

  /** `ss` does `actions` from a released button. */
  predicate Acts(ss: seq<Sample>, now: nat, actions: seq<Action>) {
    Actions(Meaning, NoPress, ss, now) == actions
  }

  lemma Followed(ss: seq<Sample>, tail: seq<Sample>, now: nat, a: seq<Action>, b: seq<Action>)
    requires Does(ss, now, a) && Acts(tail, now + Elapsed(ss), b)
    ensures Acts(ss + tail, now, a + b)
  {
    Concatenated(Meaning, NoPress, ss, tail, now);
  }

  lemma {:induction false} SplitDoes(xs: seq<Stretch>, tail: seq<Sample>, now: nat)
    requires AreStretches(xs) && Unfinished(tail)
    ensures Acts(Polls(xs) + tail, now, Outcomes(xs) + During(tail))
  {
    StretchesDo(xs, now);
    UnfinishedDoes(tail, now + Elapsed(Polls(xs)));
    Followed(Polls(xs), tail, now, Outcomes(xs), During(tail));
  }

  /**
   What the counters do with any sequence of polls, from a released button on: the polls split into presses
   and the time between them, each press has its one outcome, and nothing else happens.
   */
  lemma {:induction false} EveryPressHasItsOutcome(ss: seq<Sample>) returns (xs: seq<Stretch>, tail: seq<Sample>)
    requires forall i :: 0 <= i < |ss| ==> ss[i].elapsed <= 0x1_0000_0000 - 300
    ensures SplitsInto(ss, xs, tail)
    ensures Actions(Counting, IDLE, ss, 0) == Outcomes(xs) + During(tail)
  {
    xs, tail := EverySequenceSplits(ss);
    PollByPoll(IDLE, NoPress, ss, 0);
    SplitDoes(xs, tail, 0);
  }
}
