/** The keepalive of a WebSocket session: a timer, a ping state and a deadline,
    under any timing of the clock, the timer and the peer. */
module Keepalive {

  /** Fifteen seconds, in ticks of the steady clock. */
  const PERIOD: nat := 15_000

  /** How a timer wait completes. */
  datatype Completion = Expired | Aborted | Failed

  /** `waits` counts the waits outstanding on the timer, `completions` are timer
      handlers ready to run. `closed`: the timer handler has closed the socket;
      `stopped`: a timer wait failed. `lastActivity` is the time of the last activity
      of the peer (or of the start), `strikes` counts the genuine expiries since. */
  datatype Session = Session(
    now: nat,
    open: bool,
    ping: nat,
    expiry: nat,
    waits: nat,
    completions: seq<Completion>,
    closed: bool,
    stopped: bool,
    lastActivity: nat,
    strikes: nat)

  function Aborts(n: nat): (r: seq<Completion>)
    ensures |r| == n && forall i :: 0 <= i < n ==> r[i] == Aborted
  {
    if n == 0 then [] else Aborts(n - 1) + [Aborted]
  }

  /** `timer_.expires_after`: moves the deadline and aborts outstanding waits. */
  function ExpiresAfter(s: Session, delay: nat): Session {
    s.(expiry := s.now + delay,
       waits := 0,
       completions := s.completions + Aborts(s.waits))
  }

  function Wait(s: Session): Session {
    s.(waits := s.waits + 1)
  }

  /** `on_timer`. */
  function OnTimer(s: Session, completion: Completion): Session {
    if completion.Failed? then s.(stopped := true)
    else if s.expiry > s.now then Wait(s)
    else if s.open && s.ping == 0 then
      Wait(ExpiresAfter(s.(ping := 1, strikes := s.strikes + 1), PERIOD))
    else s.(closed := true, open := false, strikes := s.strikes + 1)
  }

  /** `activity`. */
  function Activity(s: Session): Session {
    ExpiresAfter(s.(ping := 0, lastActivity := s.now, strikes := 0), PERIOD)
  }

  /** `on_ping` for a ping that went out. */
  function OnPing(s: Session): Session {
    if s.ping == 1 then s.(ping := 2) else s
  }

  /** `do_accept` at time `now`: the timer handler is called once by hand, with the
      deadline still at the end of time, then the deadline is set. */
  function Accept(now: nat, endOfTime: nat): Session
    requires now < endOfTime
  {
    var s := Session(now, false, 0, endOfTime, 0, [], false, false, now, 0);
    ExpiresAfter(OnTimer(s, Expired), PERIOD)
  }

  /** `Tick`: time passes. `Handshake`: the connection opens. `PeerCloses`: it closes
      from the other side. `Fire`: the deadline has passed and the timer completes a
      wait. `RunTimer`: a ready timer handler runs. `Hear`: a message or a control
      frame arrives. `PingSent`: a ping has been written. */
  datatype Event =
    | Tick(duration: nat)
    | Handshake
    | PeerCloses
    | Fire
    | FailWait
    | RunTimer(i: nat)
    | Hear
    | PingSent

  predicate Possible(s: Session, e: Event) {
    match e
    case Tick(_) => true
    case Handshake => !s.closed && !s.open
    case PeerCloses => s.open
    case Fire => s.waits > 0 && s.expiry <= s.now
    case FailWait => s.waits > 0
    case RunTimer(i) => i < |s.completions|
    case Hear => true
    case PingSent => true
  }

  function Next(s: Session, e: Event): Session
    requires Possible(s, e)
  {
    match e
    case Tick(duration) => s.(now := s.now + duration)
    case Handshake => s.(open := true)
    case PeerCloses => s.(open := false)
    case Fire => s.(waits := s.waits - 1, completions := s.completions + [Expired])
    case FailWait => s.(waits := s.waits - 1, completions := s.completions + [Failed])
    case RunTimer(i) =>
      OnTimer(s.(completions := s.completions[..i] + s.completions[i + 1..]), s.completions[i])
    case Hear => Activity(s)
    case PingSent => OnPing(s)
  }

  ghost predicate Run(states: seq<Session>, events: seq<Event>, start: nat, endOfTime: nat) {
    && |states| == |events| + 1 && start < endOfTime && states[0] == Accept(start, endOfTime)
    && forall i :: 0 <= i < |events| ==> Possible(states[i], events[i]) && states[i + 1] == Next(states[i], events[i])
  }

  // ------------------------------------------------------------------ one timer

  /** Until the timer closes the socket, or a wait fails, there is exactly one timer
      wait or one timer handler ready to run; afterwards there is none. */
  ghost predicate OneTimer(s: Session) {
    s.waits + |s.completions| == if s.closed || s.stopped then 0 else 1
  }

  /** The deadline is one period after the last activity while no ping is out, two
      periods or more after it otherwise; a ping is out exactly after one strike. */
  ghost predicate DeadlineInv(s: Session) {
    && s.lastActivity <= s.now
    && (s.ping == 0 ==> s.expiry == s.lastActivity + PERIOD)
    && (s.ping != 0 ==> s.expiry >= s.lastActivity + 2 * PERIOD)
    && (!s.closed ==> s.strikes == if s.ping == 0 then 0 else 1)
  }

  lemma OneTimerStep(s: Session, e: Event)
    requires OneTimer(s) && Possible(s, e)
    ensures OneTimer(Next(s, e))
  {
  }

  lemma DeadlineStep(s: Session, e: Event)
    requires OneTimer(s) && DeadlineInv(s) && Possible(s, e)
    ensures DeadlineInv(Next(s, e))
  {
  }

  lemma {:induction false} RunInv(states: seq<Session>, events: seq<Event>, start: nat, endOfTime: nat, n: nat)
    requires Run(states, events, start, endOfTime) && n < |states|
    ensures OneTimer(states[n]) && DeadlineInv(states[n])
  {
    if n > 0 {
      RunInv(states, events, start, endOfTime, n - 1);
      OneTimerStep(states[n - 1], events[n - 1]);
      DeadlineStep(states[n - 1], events[n - 1]);
    }
  }

  // ---------------------------------------------------------------- when it closes

  /** The event at which the timer handler closes the socket. */
  predicate Closes(s: Session, e: Event)
    requires Possible(s, e)
  {
    !s.closed && Next(s, e).closed
  }

  /** The timer closes an open session only after two silent periods, and then at
      the second genuine expiry; a session that is not open, at the first expiry
      that finds it so. */
  lemma ClosesOnlyAfterSilence(states: seq<Session>, events: seq<Event>, start: nat, endOfTime: nat, n: nat)
    requires Run(states, events, start, endOfTime) && n < |events| && Closes(states[n], events[n])
    ensures states[n].open ==> states[n].now >= states[n].lastActivity + 30_000 && states[n + 1].strikes == 2
    ensures !states[n].open ==> states[n].now >= states[n].lastActivity + 15_000 && states[n + 1].strikes <= 2
  {
    RunInv(states, events, start, endOfTime, n);
  }

  /** The timer handler runs and finds the deadline passed. */
  predicate GenuineExpiry(s: Session, e: Event) {
    e.RunTimer? && e.i < |s.completions| && !s.completions[e.i].Failed? && s.expiry <= s.now
  }

  /** The timer closes the socket exactly at a genuine expiry that finds the session
      not open, or a ping already out. */
  lemma ClosesExactly(states: seq<Session>, events: seq<Event>, start: nat, endOfTime: nat, n: nat)
    requires Run(states, events, start, endOfTime) && n < |events| && !states[n].closed
    ensures
      var s := states[n];
      states[n + 1].closed <==> GenuineExpiry(s, events[n]) && (!s.open || s.ping != 0)
  {
  }

  /** A genuine expiry that finds the session open and no ping out. */
  predicate Pings(s: Session, e: Event) {
    GenuineExpiry(s, e) && s.open && s.ping == 0
  }

  /** All that moves the deadline and the ping state. A peer that is heard sets the
      deadline 15 s from now and clears the ping; the first genuine expiry sets it so
      too and sends one; a ping that went out is noted; nothing else matters. */
  lemma DeadlineMoves(states: seq<Session>, events: seq<Event>, start: nat, endOfTime: nat, n: nat)
    requires Run(states, events, start, endOfTime) && n < |events|
    ensures
      var s, r, e := states[n], states[n + 1], events[n];
      && r.expiry == (if e.Hear? || Pings(s, e) then s.now + 15_000 else s.expiry)
      && r.ping == (if e.Hear? then 0
                    else if Pings(s, e) then 1
                    else if e.PingSent? && s.ping == 1 then 2
                    else s.ping)
      && r.lastActivity == (if e.Hear? then s.now else s.lastActivity)
      && r.open == (if e.Handshake? then true
                    else if e.PeerCloses? || Closes(s, e) then false
                    else s.open)
  {
    RunInv(states, events, start, endOfTime, n);
  }

  /** A session starts with its deadline 15 s ahead, no ping out, and the wait of its
      first, by-hand timer call aborted. */
  lemma StartsArmed(states: seq<Session>, events: seq<Event>, start: nat, endOfTime: nat)
    requires Run(states, events, start, endOfTime)
    ensures
      var s := states[0];
      && s.now == start && s.lastActivity == start && s.expiry == start + 15_000
      && s.ping == 0 && s.strikes == 0 && !s.open && !s.closed && !s.stopped
      && s.waits == 0 && s.completions == [Aborted]
  {
    assert Aborts(1) == [Aborted];
  }

  /** Nothing but a failed wait ever stops the timer. */
  lemma {:induction false} StopsOnlyByFailure(
    states: seq<Session>, events: seq<Event>, start: nat, endOfTime: nat, n: nat)
    requires Run(states, events, start, endOfTime) && n < |states|
    requires states[n].stopped || Failed in states[n].completions
    ensures exists i :: 0 <= i < n && events[i].FailWait?
  {
    if n > 0 && !events[n - 1].FailWait? {
      FailureStep(states[n - 1], events[n - 1]);
      StopsOnlyByFailure(states, events, start, endOfTime, n - 1);
    }
  }

  lemma FailureStep(s: Session, e: Event)
    requires Possible(s, e) && !e.FailWait?
    requires Next(s, e).stopped || Failed in Next(s, e).completions
    ensures s.stopped || Failed in s.completions
  {
  }

  function Expiries(states: seq<Session>, events: seq<Event>, n: nat, m: nat): nat
    requires n <= m <= |events| && |states| > |events|
    decreases m
  {
    if m == n then 0
    else Expiries(states, events, n, m - 1) + (if GenuineExpiry(states[m - 1], events[m - 1]) then 1 else 0)
  }

  ghost predicate Silent(events: seq<Event>, n: nat, m: nat)
    requires n <= m <= |events|
  {
    forall i :: n <= i < m ==> !events[i].Hear?
  }

  lemma StrikeStep(s: Session, e: Event)
    requires OneTimer(s) && Possible(s, e) && !e.Hear?
    ensures Next(s, e).strikes == s.strikes + (if GenuineExpiry(s, e) then 1 else 0)
    ensures Next(s, e).lastActivity == s.lastActivity
  {
  }

  lemma NoStrikesYet(states: seq<Session>, events: seq<Event>, start: nat, endOfTime: nat, n: nat)
    requires Run(states, events, start, endOfTime) && n <= |events|
    requires n == 0 || events[n - 1].Hear?
    ensures states[n].strikes == 0
  {
    if n > 0 {
      assert states[n - 1 + 1] == Activity(states[n - 1]);
    }
  }

  /** `strikes` counts the genuine expiries of a silent stretch. */
  lemma {:induction false} StrikesCountExpiries(
    states: seq<Session>, events: seq<Event>, start: nat, endOfTime: nat, n: nat, m: nat)
    requires Run(states, events, start, endOfTime) && n <= m <= |events| && Silent(events, n, m)
    requires n == 0 || events[n - 1].Hear?
    ensures states[m].strikes == Expiries(states, events, n, m)
    ensures states[m].lastActivity == states[n].lastActivity
    decreases m
  {
    if n < m {
      StrikesCountExpiries(states, events, start, endOfTime, n, m - 1);
      RunInv(states, events, start, endOfTime, m - 1);
      var s, e := states[m - 1], events[m - 1];
      assert states[m - 1 + 1] == Next(s, e);
      StrikeStep(s, e);
    } else {
      NoStrikesYet(states, events, start, endOfTime, n);
    }
  }

  /** From the start or from any activity on, a peer that stays silent is dropped by
      the second genuine expiry at the latest, and there is never a third one. */
  lemma SilentSessionCloses(states: seq<Session>, events: seq<Event>, start: nat, endOfTime: nat, n: nat, m: nat)
    requires Run(states, events, start, endOfTime) && n <= m <= |events| && Silent(events, n, m)
    requires n == 0 || events[n - 1].Hear?
    requires !states[n].closed
    ensures Expiries(states, events, n, m) <= 2
    ensures Expiries(states, events, n, m) == 2 ==> states[m].closed
    ensures Expiries(states, events, n, m) == 0 ==> !states[m].closed
  {
    SilentStretch(states, events, start, endOfTime, n, m);
  }

  lemma {:induction false} SilentStretch(
    states: seq<Session>, events: seq<Event>, start: nat, endOfTime: nat, n: nat, m: nat)
    requires Run(states, events, start, endOfTime) && n <= m <= |events| && Silent(events, n, m)
    requires n == 0 || events[n - 1].Hear?
    requires !states[n].closed
    ensures states[m].strikes == Expiries(states, events, n, m)
    ensures states[m].strikes <= 2
    ensures states[m].strikes == 2 ==> states[m].closed
    ensures states[m].strikes == 0 ==> !states[m].closed
    decreases m
  {
    if n < m {
      SilentStretch(states, events, start, endOfTime, n, m - 1);
      RunInv(states, events, start, endOfTime, m - 1);
      var s, e := states[m - 1], events[m - 1];
      assert states[m - 1 + 1] == Next(s, e);
      StrikeStep(s, e);
    } else {
      NoStrikesYet(states, events, start, endOfTime, n);
    }
    StrikesCountExpiries(states, events, start, endOfTime, n, m);
  }
}
