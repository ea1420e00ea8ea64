/**
 What one subscriber sees step by step (internal/session/session.go:273-329, 455-487): how long it
 lasts without reading, what a read takes, and what leaving changes.
 */
module SessionDelivery {
  import opened Sessions
  import opened SessionRuns

  function EmittedAll(s: Session, events: seq<Event>): Session {
    if events == [] then s else Emitted(EmittedAll(s, events[..|events| - 1]), events[|events| - 1])
  }

  lemma OneMoreFills(s: Session, event: Event, c: ChannelId)
    requires StreamsInv(s) && c in s.channels
    ensures var t := Emitted(s, event);
            && c in t.channels && t.channels[c].capacity == s.channels[c].capacity
            && (c in t.subscribers <==> c in s.subscribers && |s.channels[c].buffer| < s.channels[c].capacity)
            && (c in t.subscribers ==> |t.channels[c].buffer| == |s.channels[c].buffer| + 1)
  {
  }

  /** Without a read, the buffer fills event by event, and the channel is closed when one does not fit. */
  lemma {:induction false} UnreadFills(s: Session, events: seq<Event>, c: ChannelId)
    requires StreamsInv(s) && c in s.subscribers
    ensures var t := EmittedAll(s, events);
            && StreamsInv(t) && c in t.channels && t.channels[c].capacity == s.channels[c].capacity
            && (c in t.subscribers <==> |s.channels[c].buffer| + |events| <= s.channels[c].capacity)
            && (c in t.subscribers ==> |t.channels[c].buffer| == |s.channels[c].buffer| + |events|)
  {
    if events != [] {
      var n := |events| - 1;
      UnreadFills(s, events[..n], c);
      EmittedKeepsStreams(EmittedAll(s, events[..n]), events[n]);
      OneMoreFills(EmittedAll(s, events[..n]), events[n], c);
    } else {
      assert ChannelInv(s.history, s.channels[c], true);
    }
  }

  lemma FreshChannel(s: Session, c: ChannelId, after: nat)
    requires Inv(s) && !Terminal(s.state) && c !in s.channels
    ensures var t := Subscribed(s, c, after);
            && c in t.subscribers && c in t.channels && |t.channels[c].buffer| == |RetainedAfter(s, after)|
            && t.channels[c].capacity == if |s.events| + 1 > 256 then |s.events| + 1 else 256
  {
    ReplayIsSuffix(s, after);
  }

  /**
   A new subscriber that reads nothing stays subscribed for exactly as many events as fit beside its
   replay: there is room for 256, or for the whole log and one more.
   */
  lemma SlowReaderLasts(s: Session, c: ChannelId, after: nat, events: seq<Event>)
    requires Inv(s) && !Terminal(s.state) && c !in s.channels
    ensures var t := EmittedAll(Next(s, Subscribe(c, after)), events);
            c in t.subscribers <==> |RetainedAfter(s, after)| + |events| <= if |s.events| + 1 > 256 then |s.events| + 1 else 256
  {
    SubscribedKeepsInv(s, c, after);
    FreshChannel(s, c, after);
    UnreadFills(Subscribed(s, c, after), events, c);
  }

  /** A read takes the next event of the history. */
  lemma ReadTakesNext(s: Session, c: ChannelId)
    requires StreamsInv(s) && c in s.channels && s.channels[c].buffer != []
    ensures var (before, now) := (s.channels[c], Next(s, Take(c)).channels[c]);
            && now.received == before.received + [s.history[before.First() + |before.received|]]
            && now.buffer == before.buffer[1..] && now.closed == before.closed
    ensures forall d :: d in s.channels && d != c ==> Next(s, Take(c)).channels[d] == s.channels[d]
  {
    assert ChannelInv(s.history, s.channels[c], c in s.subscribers);
  }

  /** Leaving closes one channel, of which what is buffered can still be read, and changes nothing else. */
  lemma LeavingCloses(s: Session, c: ChannelId)
    requires StreamsInv(s) && c in s.subscribers
    ensures var t := Next(s, Unsubscribe(c));
            && t.subscribers == s.subscribers - {c} && t.channels.Keys == s.channels.Keys
            && t.channels[c].closed && t.channels[c].buffer == s.channels[c].buffer && t.channels[c].received == s.channels[c].received
            && (forall d :: d in s.channels && d != c ==> t.channels[d] == s.channels[d])
            && t.events == s.events && t.history == s.history && t.state == s.state
    ensures Next(Next(s, Unsubscribe(c)), Unsubscribe(c)) == Next(s, Unsubscribe(c))
  {
  }

  /** An emitted event is kept as it is, but for its number and its session, and every subscriber with room gets it. */
  lemma EmitIsRecorded(s: Session, event: Event, c: ChannelId)
    requires StreamsInv(s)
    ensures var t := Next(s, Emit(event));
            var last := t.history[|t.history| - 1];
            && |t.history| == |s.history| + 1 && s.history <= t.history && t.state == s.state
            && last.kind == event.kind && last.body == event.body && last.sequence == |t.history| && last.sessionId == s.id
            && (c in t.subscribers ==> t.channels[c].Stream() == s.channels[c].Stream() + [last])
  {
  }

  /** Nothing but the final section ends a session, and nothing but a cancel asks for its end. */
  lemma RequestShows(s: Session)
    requires Inv(s)
    ensures var t := Next(s, Cancel);
            if s.done then t == s else t.cancelRequested && t.state == Cancelling && t == s.(cancelRequested := true, state := Cancelling)
  {
  }
}
