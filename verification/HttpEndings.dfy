/** How an HTTP session ends, and what each event hands to the queue. */
module HttpEndings {
  import opened HttpPipeline

  predicate EndsReading(e: Event) {
    e.ReadDone? && (e.result.ReadFailed? || e.result.ReadUpgrade?)
  }

  predicate EndsWriting(s: Session, e: Event) {
    e.WriteDone? && e.i < |s.inFlight| && (e.outcome.WriteFailed? || s.inFlight[e.i].close)
  }

  lemma OverStep(s: Session, e: Event)
    requires Possible(s, e) && (e.WriteDone? ==> s.items != [])
    ensures Next(s, e).over <==> s.over || EndsReading(e) || EndsWriting(s, e)
  {
  }

  /** A session is over exactly after a read that fails, finds the end of the stream or
      an upgrade, or after a write that fails or that of a closing response. */
  lemma {:induction false} OverIff(states: seq<Session>, events: seq<Event>, n: nat)
    requires Run(states, events) && n <= |events|
    ensures states[n].over <==> exists i :: 0 <= i < n && (EndsReading(events[i]) || EndsWriting(states[i], events[i]))
  {
    if n > 0 {
      OverIff(states, events, n - 1);
      OverStep(states[n - 1], events[n - 1]);
    }
  }

  // --------------------------------------------------------------- after the end

  lemma ReadingEndsStep(s: Session, e: Event)
    requires ReadInv(s) && Possible(s, e) && RepliesAtOnce(e) && EndsReading(e)
    ensures Next(s, e).openReads == 0 && |Next(s, e).items| < 8
  {
  }

  lemma NoReadStep(s: Session, e: Event)
    requires s.openReads == 0 && |s.items| < 8 && s.waiting == [] && Possible(s, e) && (e.WriteDone? ==> s.items != [])
    ensures Next(s, e).openReads == 0 && |Next(s, e).items| < 8 && Next(s, e).requests == s.requests
  {
  }

  /** With handlers that reply before returning, nothing is read any more. */
  lemma {:induction false} ReadingIsOver(states: seq<Session>, events: seq<Event>, i: nat, n: nat)
    requires Run(states, events) && i < n <= |events| && EndsReading(events[i])
    requires forall j :: 0 <= j < |events| ==> RepliesAtOnce(events[j])
    ensures states[n].openReads == 0 && |states[n].items| < 8 && states[n].requests == states[i].requests
    decreases n
  {
    PipelineReads(states, events, n - 1);
    if i == n - 1 {
      ReadingEndsStep(states[i], events[i]);
    } else {
      ReadingIsOver(states, events, i, n - 1);
      NoReadStep(states[n - 1], events[n - 1]);
    }
  }

  lemma WritingEndsStep(s: Session, e: Event)
    requires WriteInv(s) && Possible(s, e) && EndsWriting(s, e)
    ensures s.items != [] && Next(s, e).inFlight == [] && Next(s, e).items == s.items && Next(s, e).started == s.started
  {
  }

  lemma NoWriteStep(s: Session, e: Event)
    requires s.inFlight == [] && s.items != [] && Possible(s, e)
    ensures Next(s, e).inFlight == [] && Next(s, e).items != [] && Next(s, e).started == s.started
  {
  }

  /** After a failed write, or that of a closing response, nothing is written any more,
      whenever handlers reply. */
  lemma {:induction false} WritingIsOver(states: seq<Session>, events: seq<Event>, i: nat, n: nat)
    requires Run(states, events) && i < n <= |events| && EndsWriting(states[i], events[i])
    ensures states[n].inFlight == [] && states[n].items != [] && states[n].started == states[i].started
    decreases n
  {
    if i == n - 1 {
      RunWrites(states, events, i);
      WritingEndsStep(states[i], events[i]);
    } else {
      WritingIsOver(states, events, i, n - 1);
      NoWriteStep(states[n - 1], events[n - 1]);
    }
  }

  // -------------------------------------------------------------- until the end

  lemma WritingStep(s: Session, e: Event)
    requires WriteInv(s) && (s.inFlight != [] <==> s.items != []) && Possible(s, e) && !EndsWriting(s, e)
    ensures e.WriteDone? ==> s.items != []
    ensures Next(s, e).inFlight != [] <==> Next(s, e).items != []
  {
  }

  /** Until then, even with reading over, a write is outstanding exactly when responses
      are queued: the queue drains. */
  lemma {:induction false} WritingGoesOn(states: seq<Session>, events: seq<Event>, n: nat)
    requires Run(states, events) && n <= |events|
    requires forall i :: 0 <= i < n ==> !EndsWriting(states[i], events[i])
    ensures states[n].inFlight != [] <==> states[n].items != []
  {
    if n > 0 {
      WritingGoesOn(states, events, n - 1);
      RunWrites(states, events, n - 1);
      WritingStep(states[n - 1], events[n - 1]);
    }
  }

  // -------------------------------------------------------- what is handed over

  predicate IsRequest(e: Event) {
    e.ReadDone? && (e.result.ReadReplied? || e.result.ReadDeferred?)
  }

  function Requests(events: seq<Event>): nat {
    if events == [] then 0
    else Requests(events[..|events| - 1]) + (if IsRequest(events[|events| - 1]) then 1 else 0)
  }

  /** Every request read is numbered, and answered or still waiting. */
  lemma {:induction false} RequestsCounted(states: seq<Session>, events: seq<Event>, n: nat)
    requires Run(states, events) && n <= |events|
    ensures states[n].requests == Requests(events[..n]) == |states[n].pushed| + |states[n].waiting|
  {
    if n > 0 {
      RequestsCounted(states, events, n - 1);
      assert events[..n][..n - 1] == events[..n - 1];
      HandedOver(states[n - 1], events[n - 1]);
    }
  }

  /** The response to a request carries its number and the handler's wish to close. */
  lemma HandedOver(s: Session, e: Event)
    requires Possible(s, e) && (e.WriteDone? ==> s.items != [])
    ensures
      var r := Next(s, e);
      if e.ReadDone? && e.result.ReadReplied? then
        && r.pushed == s.pushed + [Response(s.requests, e.result.close)]
        && r.waiting == s.waiting && r.requests == s.requests + 1
      else if e.ReadDone? && e.result.ReadDeferred? then
        r.pushed == s.pushed && r.waiting == s.waiting + [s.requests] && r.requests == s.requests + 1
      else if e.LateReply? then
        && r.pushed == s.pushed + [Response(s.waiting[e.i], e.close)]
        && r.waiting == s.waiting[..e.i] + s.waiting[e.i + 1..] && r.requests == s.requests
      else
        r.pushed == s.pushed && r.waiting == s.waiting && r.requests == s.requests
  {
  }
}
