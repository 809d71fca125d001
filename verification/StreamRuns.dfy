/**
 What the steps of a stream and of the hub come to when they are taken one after the other: a commit reaches
 every stream it is news to and the stream then catches up, and a withdrawal that is heard of ends the
 device's streams and nobody else's.
 */
module StreamRuns {
  import opened ChangeFeed
  import opened WatchStream

  // ------------------------------------------------------------------ a commit, and who hears of it

  /** The stream finds a wakeup, if its channel was empty. */
  ghost predicate WokenAs(before: Stream, after: Stream) {
    after == if before.events == [] then before.(events := [Changes]) else before
  }

  /** A commit that is heard of takes the next value, and wakes every listening stream but its author's own. */
  lemma ACommitReachesTheOthers(hub: Hub, call: nat, author: string)
    requires call !in hub.pending
    ensures var after := Advance(Advance(hub, Commit(call, author, true)), Announce(call));
            && after.counter == hub.counter + 1 && (author, after.counter) in after.announced
            && after.tokens == hub.tokens && after.rows == hub.rows && after.unheard == hub.unheard
            && after.pending == hub.pending && after.streams.Keys == hub.streams.Keys
            && forall id :: id in hub.streams ==>
                 if Listening(hub.streams[id]) && (author == "" || hub.streams[id].device != author)
                 then WokenAs(hub.streams[id], after.streams[id]) else after.streams[id] == hub.streams[id]
  {
    assert (hub.pending[call := Wakeup(author, hub.counter + 1)]) - {call} == hub.pending;
  }

  /** One nobody hears of is a commit all the same, and is found by the next read. */
  lemma AnUnheardCommitCounts(hub: Hub, call: nat, author: string)
    requires call !in hub.pending
    ensures Advance(hub, Commit(call, author, false)) == hub.(counter := hub.counter + 1)
  {
  }

  // ------------------------------------------------------------------ a withdrawal, and whom it ends

  /** Every listening stream of the device finds this event next, and no other stream finds anything. */
  ghost predicate DeliveredTo(before: map<nat, Stream>, after: map<nat, Stream>, device: string, event: Event) {
    && after.Keys == before.Keys
    && forall id :: id in before ==>
         after[id] == if Listening(before[id]) && before[id].device == device then before[id].(events := [event])
                      else before[id]
  }

  lemma ARevocationIsDelivered(hub: Hub, call: nat, device: string)
    requires call !in hub.pending && device in hub.rows
    ensures var revoked := Advance(hub, Revoke(call, device, true));
            var after := Advance(revoked, Announce(call));
            && (forall token :: !Valid(revoked, device, token))
            && (forall other, token :: other != device ==> (Valid(revoked, other, token) <==> Valid(hub, other, token)))
            && DeliveredTo(hub.streams, after.streams, device, Revoked) && after.counter == hub.counter
  {
  }

  lemma ASignInIsDelivered(hub: Hub, call: nat, device: string, token: string)
    requires call !in hub.pending && token !in hub.spent
    ensures var signedIn := Advance(hub, SignIn(call, device, token, true));
            var after := Advance(signedIn, Announce(call));
            && (forall other :: Valid(signedIn, device, other) <==> other == token)
            && (forall other, used ::
                  other != device ==> (Valid(signedIn, other, used) <==> Valid(hub, other, used)))
            && DeliveredTo(hub.streams, after.streams, device, Disconnected) && after.counter == hub.counter
  {
  }

  /** An urgent event ends a stream that waits; a dead token ends one that has only subscribed. */
  lemma ItThenEnds(hub: Hub, id: nat)
    requires id in hub.streams
    ensures hub.streams[id].phase.Waiting? && hub.streams[id].events != [] && Urgent(hub.streams[id].events[0]) ==>
              Advance(hub, Receive(id)).streams[id].phase.Ended?
    ensures hub.streams[id].phase.Subscribed? && !Valid(hub, hub.streams[id].device, hub.streams[id].token) ==>
              Advance(hub, Recheck(id)).streams[id].phase.Ended?
    ensures Advance(hub, HangUp(id)).streams[id].phase.Ended?
    ensures forall other :: other in hub.streams && other != id ==>
              && Advance(hub, Receive(id)).streams[other] == hub.streams[other]
              && Advance(hub, Recheck(id)).streams[other] == hub.streams[other]
              && Advance(hub, HangUp(id)).streams[other] == hub.streams[other]
  {
  }

  // ------------------------------------------------------------------ a stream left alone

  /** The stream has the account through its counter, and waits for more on an empty channel. */
  ghost predicate IsUpToDate(hub: Hub, id: nat) {
    && id in hub.streams && hub.streams[id].phase.Waiting? && hub.streams[id].events == []
    && hub.streams[id].cursor == hub.counter
  }

  /** A page that stops short is followed by another; the one that reaches the counter is the last. */
  lemma PagesFollowEachOther(hub: Hub, id: nat, pageEnd: nat)
    requires id in hub.streams && hub.streams[id].phase.Reading?
    requires hub.streams[id].cursor < pageEnd <= hub.counter
    ensures var counted := Advance(hub, ReadCounter(id));
            var after := Advance(counted, WritePage(id, pageEnd));
            && after.counter == hub.counter && id in after.streams && after.streams[id].cursor == pageEnd
            && after.streams[id].events == hub.streams[id].events
            && after.streams[id].phase == if pageEnd < hub.counter then Reading else Waiting
  {
  }

  /** A page that would not move the cursor, or would pass the counter, is none. */
  lemma NoPageStandsStill(hub: Hub, id: nat, pageEnd: nat)
    requires id in hub.streams && hub.streams[id].phase.Counted?
    requires pageEnd != hub.streams[id].phase.upper
    requires pageEnd <= hub.streams[id].cursor || hub.streams[id].phase.upper < pageEnd
    ensures Advance(hub, WritePage(id, pageEnd)).streams[id] == hub.streams[id]
  {
  }

  /** Read to the counter in any number of pages. */
  function Reads(id: nat, ends: seq<nat>): seq<Step> {
    if ends == [] then []
    else Reads(id, ends[..|ends| - 1]) + [ReadCounter(id), WritePage(id, ends[|ends| - 1])]
  }

  function Taken(hub: Hub, steps: seq<Step>): Hub {
    if steps == [] then hub else Advance(Taken(hub, steps[..|steps| - 1]), steps[|steps| - 1])
  }

  lemma TakenTwo(hub: Hub, steps: seq<Step>, a: Step, b: Step)
    ensures Taken(hub, steps + [a, b]) == Advance(Advance(Taken(hub, steps), a), b)
  {
    hide Advance;
    var all := steps + [a, b];
    assert all[..|all| - 1] == steps + [a];
    assert (steps + [a])[..|steps|] == steps;
  }

  /** Page ends that rise from the stream's cursor. */
  ghost predicate Rise(cursor: nat, ends: seq<nat>, counter: nat) {
    && (forall i :: 0 <= i < |ends| ==> cursor < ends[i] <= counter)
    && (forall i, j :: 0 <= i < j < |ends| ==> ends[i] < ends[j])
  }

  lemma {:induction false} ReadingInPages(hub: Hub, id: nat, ends: seq<nat>)
    requires id in hub.streams && hub.streams[id].phase.Reading? && Rise(hub.streams[id].cursor, ends, hub.counter)
    ensures var after := Taken(hub, Reads(id, ends));
            && after.counter == hub.counter && id in after.streams
            && after.streams[id].events == hub.streams[id].events
            && (if ends == [] then after.streams[id] == hub.streams[id]
                else after.streams[id].cursor == ends[|ends| - 1] &&
                     after.streams[id].phase == if ends[|ends| - 1] < hub.counter then Reading else Waiting)
  {
    if ends != [] {
      var n := |ends| - 1;
      hide Advance;
      ReadingInPages(hub, id, ends[..n]);
      var before := Taken(hub, Reads(id, ends[..n]));
      assert n > 0 ==> ends[..n][n - 1] == ends[n - 1] < ends[n];
      TakenTwo(hub, Reads(id, ends[..n]), ReadCounter(id), WritePage(id, ends[n]));
      PagesFollowEachOther(before, id, ends[n]);
    }
  }

  /**
   A stream that is admitted under a good token, and is behind, subscribes, is checked again, and reads its
   way to the counter in pages of any size.
   */
  lemma AStreamCatchesUp(hub: Hub, id: nat, ends: seq<nat>)
    requires id in hub.streams && hub.streams[id].phase.Admitted?
    requires Valid(hub, hub.streams[id].device, hub.streams[id].token)
    requires Rise(hub.streams[id].cursor, ends, hub.counter) && ends != [] && ends[|ends| - 1] == hub.counter
    ensures IsUpToDate(Taken(Advance(Advance(hub, Subscribe(id)), Recheck(id)), Reads(id, ends)), id)
  {
    var subscribed := Advance(hub, Subscribe(id));
    assert subscribed.streams[id] == hub.streams[id].(phase := Subscribed, events := []);
    var checked := Advance(subscribed, Recheck(id));
    assert checked.streams[id] == hub.streams[id].(phase := Reading, events := []);
    hide Advance;
    ReadingInPages(checked, id, ends);
  }

  /** So does one that waits and has been woken. */
  lemma AWokenStreamCatchesUp(hub: Hub, id: nat, ends: seq<nat>)
    requires id in hub.streams && hub.streams[id].phase.Waiting? && hub.streams[id].events == [Changes]
    requires Rise(hub.streams[id].cursor, ends, hub.counter) && ends != [] && ends[|ends| - 1] == hub.counter
    ensures IsUpToDate(Taken(Advance(hub, Receive(id)), Reads(id, ends)), id)
  {
    var received := Advance(hub, Receive(id));
    assert received.streams[id] == hub.streams[id].(phase := Reading, events := []);
    hide Advance;
    ReadingInPages(received, id, ends);
  }

  /** One that was woken for nothing finds nothing to send, and waits again. */
  lemma AStreamWokenForNothingWaits(hub: Hub, id: nat)
    requires id in hub.streams && hub.streams[id].phase.Waiting? && hub.streams[id].events == [Changes]
    requires hub.streams[id].cursor == hub.counter
    ensures IsUpToDate(Advance(Advance(Advance(hub, Receive(id)), ReadCounter(id)), WritePage(id, hub.counter)), id)
  {
  }

  /** A stream is at one place in its handler: a step it is not at leaves it as it is. */
  lemma OnePlaceAtATime(hub: Hub, stream: Stream, id: nat, pageEnd: nat)
    ensures !stream.phase.Admitted? ==> Proceed(hub, stream, Subscribe(id)) == stream
    ensures !stream.phase.Subscribed? ==> Proceed(hub, stream, Recheck(id)) == stream
    ensures !stream.phase.Reading? ==> Proceed(hub, stream, ReadCounter(id)) == stream
    ensures !stream.phase.Counted? ==> Proceed(hub, stream, WritePage(id, pageEnd)) == stream
    ensures !stream.phase.Waiting? || stream.events == [] ==> Proceed(hub, stream, Receive(id)) == stream
  {
  }

  // ------------------------------------------------------------------ the rest of the hub

  /** Only a good token opens a stream; a revoked device's row can go, and a restart takes every stream. */
  lemma TheRestOfTheHub(hub: Hub, id: nat, device: string, token: string, since: nat)
    ensures var after := Advance(hub, Admit(id, device, token, since));
            if id !in hub.streams && Valid(hub, device, token)
            then after == hub.(streams := hub.streams[id := Stream(device, token, [], since, Admitted)])
            else after == hub
    ensures Advance(hub, RemoveRow(device)).rows == if device in hub.tokens then hub.rows else hub.rows - {device}
    ensures Advance(hub, Restart) == hub.(streams := map[], pending := map[])
  {
  }
}
