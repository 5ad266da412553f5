/** `websocket_session`: the send queue and the keepalive, updated in place by the
    callbacks that run on the session's strand. */
module WebSocketSessions {
  import Keepalive
  import SendQueue

  class WebSocketSession {
    // send queue
    var sendQueue: seq<string>
    var strand: seq<string>
    var inFlight: seq<string>
    ghost var posted: seq<string>
    ghost var sent: seq<string>
    ghost var dropped: seq<string>

    // keepalive
    var now: nat
    var open: bool
    var ping: nat
    var expiry: nat
    var waits: nat
    var completions: seq<Keepalive.Completion>
    var closed: bool
    var stopped: bool
    ghost var lastActivity: nat
    ghost var strikes: nat

    ghost function Sender(): SendQueue.Sender
      reads this
    {
      SendQueue.Sender(strand, sendQueue, inFlight, posted, sent, dropped)
    }

    ghost function Timer(): Keepalive.Session
      reads this
    {
      Keepalive.Session(now, open, ping, expiry, waits, completions, closed, stopped, lastActivity, strikes)
    }

    /** What every callback finds and leaves behind; the clock, the timer and the peer
        keep it too. */
    ghost predicate Valid()
      reads this
    {
      SendQueue.OneWrite(Sender()) && Keepalive.OneTimer(Timer()) && Keepalive.DeadlineInv(Timer())
    }

    /** The constructor followed by `do_accept`. */
    constructor (now: nat, endOfTime: nat)
      requires now < endOfTime
      ensures Valid()
      ensures Sender() == SendQueue.FRESH && Timer() == Keepalive.Accept(now, endOfTime)
    {
      sendQueue, strand, inFlight := [], [], [];
      posted, sent, dropped := [], [], [];
      this.now, open, ping, expiry, waits, completions := now, false, 0, endOfTime, 0, [];
      closed, stopped, lastActivity, strikes := false, false, now, 0;
      new;
      OnTimer(Keepalive.Expired);
      SetDeadline(Keepalive.PERIOD);
    }

    // -------------------------------------------------------------- send queue

    method WriteResponse(message: string)
      requires Valid()
      modifies this`strand, this`posted
      ensures Valid() && Sender() == SendQueue.Next(old(Sender()), SendQueue.Post(message))
      ensures Timer() == old(Timer())
    {
      strand := strand + [message];
      posted := posted + [message];
    }

    /** The posted part of `write_response`. */
    method RunPosted()
      requires Valid() && strand != []
      modifies this`strand, this`sendQueue, this`inFlight
      ensures Valid() && Sender() == SendQueue.Next(old(Sender()), SendQueue.RunPosted)
      ensures Timer() == old(Timer())
    {
      var message := strand[0];
      strand := strand[1..];
      var writeInProgress := sendQueue != [];
      sendQueue := sendQueue + [message];
      if !writeInProgress {
        WriteQueuedMessages();
      }
    }

    method WriteQueuedMessages()
      requires sendQueue != []
      modifies this`inFlight
      ensures Sender() == SendQueue.StartWrite(old(Sender()))
    {
      inFlight := inFlight + [sendQueue[0]];
    }

    method OnWrite(i: nat, ok: bool)
      requires Valid() && i < |inFlight|
      modifies this`sendQueue, this`inFlight, this`sent, this`dropped
      ensures Valid() && Sender() == SendQueue.OnWrite(old(Sender()), i, ok)
      ensures Timer() == old(Timer())
    {
      ghost var front := sendQueue[0];
      inFlight := inFlight[..i] + inFlight[i + 1..];
      sendQueue := sendQueue[1..];
      if ok {
        sent := sent + [front];
        if sendQueue != [] {
          WriteQueuedMessages();
        }
      } else {
        dropped := dropped + [front];
      }
    }

    // --------------------------------------------------------------- keepalive

    /** `timer_.expires_after`: every outstanding wait completes as aborted. */
    method SetDeadline(delay: nat)
      modifies this`expiry, this`waits, this`completions
      ensures Timer() == Keepalive.ExpiresAfter(old(Timer()), delay)
      ensures Sender() == old(Sender())
    {
      expiry := now + delay;
      ghost var before := completions;
      var aborted := waits;
      while waits > 0
        invariant waits <= aborted && expiry == now + delay
        invariant completions == before + Keepalive.Aborts(aborted - waits)
      {
        waits := waits - 1;
        completions := completions + [Keepalive.Aborted];
      }
    }

    /** The `i`th ready timer handler runs. */
    method RunTimer(i: nat)
      requires Valid() && i < |completions|
      modifies this`ping, this`expiry, this`waits, this`completions, this`closed, this`open, this`stopped, this`strikes
      ensures Valid() && Timer() == Keepalive.Next(old(Timer()), Keepalive.RunTimer(i))
      ensures Sender() == old(Sender())
    {
      Keepalive.OneTimerStep(Timer(), Keepalive.RunTimer(i));
      Keepalive.DeadlineStep(Timer(), Keepalive.RunTimer(i));
      var completion := completions[i];
      completions := completions[..i] + completions[i + 1..];
      OnTimer(completion);
    }

    method OnTimer(completion: Keepalive.Completion)
      modifies this`ping, this`expiry, this`waits, this`completions, this`closed, this`open, this`stopped, this`strikes
      ensures Timer() == Keepalive.OnTimer(old(Timer()), completion)
      ensures Sender() == old(Sender())
    {
      if completion.Failed? {
        stopped := true;
        return;
      }
      if expiry <= now {
        strikes := strikes + 1;
        if open && ping == 0 {
          ping := 1;
          SetDeadline(Keepalive.PERIOD);
        } else {
          closed, open := true, false;
          return;
        }
      }
      waits := waits + 1;
    }

    method Activity()
      requires Valid()
      modifies this`ping, this`expiry, this`waits, this`completions, this`lastActivity, this`strikes
      ensures Valid() && Timer() == Keepalive.Activity(old(Timer()))
      ensures Sender() == old(Sender())
    {
      Keepalive.OneTimerStep(Timer(), Keepalive.Hear);
      Keepalive.DeadlineStep(Timer(), Keepalive.Hear);
      ping := 0;
      lastActivity, strikes := now, 0;
      SetDeadline(Keepalive.PERIOD);
    }

    method OnPing()
      requires Valid()
      modifies this`ping
      ensures Valid() && Timer() == Keepalive.OnPing(old(Timer())) && Sender() == old(Sender())
    {
      if ping == 1 {
        ping := 2;
      }
    }
  }
}
