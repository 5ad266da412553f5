/** The send queue of a WebSocket session. Replies are posted to the session's
    strand, queued there, and written one at a time. */
module SendQueue {

  /** `strand` are the replies posted and not yet run, in strand order; `queue` is
      `send_queue_`; `inFlight` the writes outstanding on the socket. `posted`,
      `sent` and `dropped` record the replies posted, written, and taken off the
      queue by a failed write. */
  datatype Sender = Sender(
    strand: seq<string>,
    queue: seq<string>,
    inFlight: seq<string>,
    posted: seq<string>,
    sent: seq<string>,
    dropped: seq<string>)

  datatype Event = Post(message: string) | RunPosted | WriteDone(i: nat, ok: bool)

  /** `write_queued_messages`: starts writing the front of the queue. */
  function StartWrite(s: Sender): Sender
    requires s.queue != []
  {
    s.(inFlight := s.inFlight + [s.queue[0]])
  }

  function Enqueue(s: Sender, message: string): Sender {
    var r := s.(queue := s.queue + [message]);
    if s.queue == [] then StartWrite(r) else r
  }

  function OnWrite(s: Sender, i: nat, ok: bool): Sender
    requires i < |s.inFlight| && s.queue != []
  {
    var r := s.(inFlight := s.inFlight[..i] + s.inFlight[i + 1..], queue := s.queue[1..]);
    if !ok then r.(dropped := s.dropped + [s.queue[0]])
    else if r.queue != [] then StartWrite(r.(sent := s.sent + [s.queue[0]]))
    else r.(sent := s.sent + [s.queue[0]])
  }

  predicate Possible(s: Sender, e: Event) {
    match e
    case Post(_) => true
    case RunPosted => s.strand != []
    case WriteDone(i, _) => i < |s.inFlight|
  }

  function Next(s: Sender, e: Event): Sender
    requires Possible(s, e) && (e.WriteDone? ==> s.queue != [])
  {
    match e
    case Post(message) => s.(strand := s.strand + [message], posted := s.posted + [message])
    case RunPosted => Enqueue(s.(strand := s.strand[1..]), s.strand[0])
    case WriteDone(i, ok) => OnWrite(s, i, ok)
  }

  const FRESH: Sender := Sender([], [], [], [], [], [])

  ghost predicate Run(states: seq<Sender>, events: seq<Event>) {
    && |states| == |events| + 1 && states[0] == FRESH
    && forall i :: 0 <= i < |events| ==>
         && Possible(states[i], events[i]) && (events[i].WriteDone? ==> states[i].queue != [])
         && states[i + 1] == Next(states[i], events[i])
  }

  /** At most one write is outstanding, and it writes the front of the queue. */
  ghost predicate OneWrite(s: Sender) {
    |s.inFlight| <= 1 && (s.inFlight != [] ==> s.queue != [] && s.inFlight[0] == s.queue[0])
  }

  /** Messages wait, but no write is outstanding to make room for them. */
  predicate Stalled(s: Sender) {
    s.queue != [] && s.inFlight == []
  }

  /** In particular a completed write finds its message at the front of the queue. */
  lemma OneWriteStep(s: Sender, e: Event)
    requires OneWrite(s) && Possible(s, e)
    ensures e.WriteDone? ==> s.queue != []
    ensures OneWrite(Next(s, e))
  {
  }

  lemma {:induction false} AtMostOneWrite(states: seq<Sender>, events: seq<Event>, n: nat)
    requires Run(states, events) && n < |states|
    ensures OneWrite(states[n])
  {
    if n > 0 {
      AtMostOneWrite(states, events, n - 1);
      OneWriteStep(states[n - 1], events[n - 1]);
    }
  }

  // ------------------------------------------------------ runs without write errors

  predicate NoError(e: Event) {
    e.WriteDone? ==> e.ok
  }

  /** Nothing is lost or reordered: sent, queued and posted replies, in this order,
      are the posted ones. */
  ghost predicate Lossless(s: Sender) {
    && (s.inFlight != [] <==> s.queue != [])
    && s.posted == s.sent + s.queue + s.strand && s.dropped == []
  }

  lemma LosslessStep(s: Sender, e: Event)
    requires OneWrite(s) && Lossless(s) && Possible(s, e) && NoError(e)
    ensures (e.WriteDone? ==> s.queue != []) && Lossless(Next(s, e))
  {
    match e
    case Post(message) => assert s.sent + s.queue + s.strand + [message] == s.sent + s.queue + (s.strand + [message]);
    case RunPosted =>
      assert s.strand == [s.strand[0]] + s.strand[1..];
      assert s.sent + s.queue + s.strand == s.sent + (s.queue + [s.strand[0]]) + s.strand[1..];
    case WriteDone(_, _) =>
      assert s.queue == [s.queue[0]] + s.queue[1..];
      assert s.sent + s.queue + s.strand == s.sent + [s.queue[0]] + s.queue[1..] + s.strand;
  }

  /** Without write errors a write is outstanding exactly when messages are queued,
      and messages are sent in the order they were posted. */
  lemma {:induction false} SendsInOrder(states: seq<Sender>, events: seq<Event>, n: nat)
    requires Run(states, events) && n < |states|
    requires forall i :: 0 <= i < |events| ==> NoError(events[i])
    ensures |states[n].inFlight| == (if states[n].queue != [] then 1 else 0)
    ensures states[n].sent + states[n].queue + states[n].strand == states[n].posted
    ensures Lossless(states[n])
  {
    if n > 0 {
      SendsInOrder(states, events, n - 1);
      AtMostOneWrite(states, events, n - 1);
      LosslessStep(states[n - 1], events[n - 1]);
    }
    AtMostOneWrite(states, events, n);
  }

  // --------------------------------------------------------- runs with write errors

  /** A write fails while more messages wait behind it. */
  predicate StallingEvent(s: Sender, e: Event) {
    e.WriteDone? && !e.ok && |s.queue| >= 2
  }

  lemma StallStep(s: Sender, e: Event)
    requires OneWrite(s) && Possible(s, e) && (e.WriteDone? ==> s.queue != [])
    ensures Stalled(Next(s, e)) <==> Stalled(s) || StallingEvent(s, e)
    ensures Stalled(s) ==> Next(s, e).sent == s.sent
  {
  }

  function Writes(events: seq<Event>, ok: bool): nat {
    if events == [] then 0
    else
      var last := events[|events| - 1];
      Writes(events[..|events| - 1], ok) + (if last.WriteDone? && last.ok == ok then 1 else 0)
  }

  /** In every run a message is sent for each write that succeeds and dropped for each
      that fails, in posting order; the rest is still queued or on the strand. */
  lemma {:induction false} SentOrDropped(states: seq<Sender>, events: seq<Event>, n: nat)
    requires Run(states, events) && n < |states|
    ensures |states[n].sent| == Writes(events[..n], true) && |states[n].dropped| == Writes(events[..n], false)
    ensures |states[n].sent| + |states[n].dropped| <= |states[n].posted|
    ensures
      states[n].posted[|states[n].sent| + |states[n].dropped|..] == states[n].queue + states[n].strand
  {
    if n > 0 {
      SentOrDropped(states, events, n - 1);
      assert events[..n][..n - 1] == events[..n - 1];
      RestStep(states[n - 1], events[n - 1]);
    }
  }

  lemma RestStep(s: Sender, e: Event)
    requires Possible(s, e) && (e.WriteDone? ==> s.queue != [])
    requires |s.sent| + |s.dropped| <= |s.posted| && s.posted[|s.sent| + |s.dropped|..] == s.queue + s.strand
    ensures
      var r := Next(s, e);
      && |r.sent| == |s.sent| + (if e.WriteDone? && e.ok then 1 else 0)
      && |r.dropped| == |s.dropped| + (if e.WriteDone? && !e.ok then 1 else 0)
      && |r.sent| + |r.dropped| <= |r.posted| && r.posted[|r.sent| + |r.dropped|..] == r.queue + r.strand
      && (e.WriteDone? && e.ok ==> r.sent == s.sent + [s.posted[|s.sent| + |s.dropped|]])
      && (e.WriteDone? && !e.ok ==> r.dropped == s.dropped + [s.posted[|s.sent| + |s.dropped|]])
  {
    var k := |s.sent| + |s.dropped|;
    var rest := s.posted[k..];
    assert |rest| == |s.queue| + |s.strand|;
    match e
    case Post(message) =>
      assert (s.posted + [message])[k..] == rest + [message];
      assert s.queue + s.strand + [message] == s.queue + (s.strand + [message]);
    case RunPosted =>
      assert s.queue + s.strand == s.queue + [s.strand[0]] + s.strand[1..];
    case WriteDone(_, _) =>
      assert rest[0] == s.queue[0];
      assert s.posted[k + 1..] == rest[1..] == s.queue[1..] + s.strand;
  }

  /** The queue stalls exactly when a write fails with messages waiting behind it,
      and then it never recovers. */
  lemma {:induction false} StallsIff(states: seq<Sender>, events: seq<Event>, n: nat)
    requires Run(states, events) && n < |states|
    ensures Stalled(states[n]) <==> exists i :: 0 <= i < n && StallingEvent(states[i], events[i])
  {
    if n > 0 {
      StallsIff(states, events, n - 1);
      AtMostOneWrite(states, events, n - 1);
      StallStep(states[n - 1], events[n - 1]);
    }
  }

  lemma {:induction false} StalledSendsNothing(states: seq<Sender>, events: seq<Event>, n: nat, m: nat)
    requires Run(states, events) && n <= m < |states| && Stalled(states[n])
    ensures Stalled(states[m]) && states[m].sent == states[n].sent
    decreases m
  {
    if n < m {
      StalledSendsNothing(states, events, n, m - 1);
      AtMostOneWrite(states, events, m - 1);
      StallStep(states[m - 1], events[m - 1]);
    }
  }

  /** It can happen with two messages. */
  lemma StallHappens() returns (states: seq<Sender>, events: seq<Event>)
    ensures Run(states, events) && Stalled(states[|events|])
  {
    events := [Post("a"), RunPosted, Post("b"), RunPosted, WriteDone(0, false)];
    var s1 := Next(FRESH, Post("a"));
    var s2 := Next(s1, RunPosted);
    var s3 := Next(s2, Post("b"));
    var s4 := Next(s3, RunPosted);
    assert s4 == Sender([], ["a", "b"], ["a"], ["a", "b"], [], []);
    states := [FRESH, s1, s2, s3, s4, Next(s4, WriteDone(0, false))];
  }
}
