/**
 Streams watching one account, while commits, broker calls, sign-ins and revocations run beside them.
 A database change and the broker call that announces it are two steps; so are subscribing, checking
 the credential again, reading the counter and writing the page it bounds.
 */
module WatchStream {
  import opened ChangeFeed
  import opened Tables
  import opened Pull

  /** Where one stream is in its handler. The counter a page was read under bounds that page. */
  datatype Phase =
    | Admitted                  // past the middleware, not yet subscribed
    | Subscribed                // not yet checked again
    | Reading                   // about to read the counter
    | Counted(upper: nat)       // about to write the page
    | Waiting                   // on its channel
    | Ended

  /** `events` is the stream's channel while it is subscribed. */
  datatype Stream = Stream(device: string, token: string, events: seq<Event>, cursor: nat, phase: Phase)

  datatype Announcement =
    | Wakeup(author: string, seqValue: nat)
    | Urgently(device: string, event: Event)

  /**
   `rows` are the devices that have a row, revoked or not, `tokens` the tokens that work, `spent` every
   token there ever was. `pending` are committed changes whose broker call is still to come, `announced`
   the commits whose call has been made, and `unheard` the tokens withdrawn by a change that committed
   while its caller was told it failed.
   */
  datatype Hub = Hub(counter: nat, rows: set<string>, tokens: map<string, string>, spent: set<string>,
                     streams: map<nat, Stream>, pending: map<nat, Announcement>, announced: set<(string, nat)>,
                     unheard: set<string>)

  datatype Step =
    | Commit(call: nat, author: string, heard: bool)
    | Revoke(call: nat, device: string, heard: bool)
    | SignIn(call: nat, device: string, token: string, heard: bool)
    | RemoveRow(device: string)
    | Announce(call: nat)
    | Admit(stream: nat, device: string, token: string, since: nat)
    | Subscribe(stream: nat)
    | Recheck(stream: nat)
    | ReadCounter(stream: nat)
    | WritePage(stream: nat, pageEnd: nat)
    | Receive(stream: nat)
    | HangUp(stream: nat)
    | Restart

  predicate Valid(hub: Hub, device: string, token: string) {
    device in hub.tokens && hub.tokens[device] == token
  }

  predicate Listening(stream: Stream) {
    !stream.phase.Admitted? && !stream.phase.Ended?
  }

  function Put(hub: Hub, id: nat, stream: Stream): Hub {
    hub.(streams := hub.streams[id := stream])
  }

  function Finished(stream: Stream): Stream {
    stream.(phase := Ended, events := [])
  }

  /** One broker call: each subscribed stream it concerns finds it in its channel. */
  function Notified(stream: Stream, announcement: Announcement): Stream {
    if !Listening(stream) then stream
    else
      match announcement
      case Wakeup(author, _) =>
        if IsNews(author, stream.device) then stream.(events := Woken(stream.events)) else stream
      case Urgently(device, event) =>
        if stream.device == device then stream.(events := Replaced(stream.events, event)) else stream
  }

  /** The token a device is about to lose, if it has one. */
  function Losing(hub: Hub, device: string): set<string> {
    if device in hub.tokens then {hub.tokens[device]} else {}
  }

  /** After the database change: the broker call to come, or nobody who knows there should be one. */
  function Withdrawn(hub: Hub, call: nat, device: string, event: Event, lost: set<string>, heard: bool): Hub {
    if heard then hub.(pending := hub.pending[call := Urgently(device, event)])
    else hub.(unheard := hub.unheard + lost)
  }

  /** Revoking again is not an error, and is announced again. */
  function OnRevoke(hub: Hub, call: nat, device: string, heard: bool): Hub {
    if call in hub.pending || device !in hub.rows then hub
    else Withdrawn(hub.(tokens := hub.tokens - {device}), call, device, Revoked, Losing(hub, device), heard)
  }

  function OnSignIn(hub: Hub, call: nat, device: string, token: string, heard: bool): Hub {
    if call in hub.pending || token in hub.spent then hub
    else
      Withdrawn(hub.(rows := hub.rows + {device}, tokens := hub.tokens[device := token], spent := hub.spent + {token}),
                call, device, Disconnected, Losing(hub, device), heard)
  }

  /** A page's end is inside the window its counter bounds, and short of it only when more is to come. */
  predicate PageFits(cursor: nat, pageEnd: nat, upper: nat) {
    pageEnd == upper || cursor < pageEnd < upper
  }

  function OnReceive(stream: Stream): Stream {
    if stream.events == [] then stream
    else if Urgent(stream.events[0]) then Finished(stream)
    else stream.(events := stream.events[1..], phase := Reading)
  }

  /** One stream's own step; a step it is not at changes nothing. */
  function Proceed(hub: Hub, stream: Stream, step: Step): Stream {
    match step
    case Subscribe(_) => if stream.phase.Admitted? then stream.(phase := Subscribed, events := []) else stream
    case Recheck(_) =>
      if !stream.phase.Subscribed? then stream
      else if Valid(hub, stream.device, stream.token) then stream.(phase := Reading)
      else Finished(stream)
    case ReadCounter(_) => if stream.phase.Reading? then stream.(phase := Counted(hub.counter)) else stream
    case WritePage(_, pageEnd) =>
      if !stream.phase.Counted? || !PageFits(stream.cursor, pageEnd, stream.phase.upper) then stream
      else stream.(cursor := pageEnd, phase := if pageEnd < stream.phase.upper then Reading else Waiting)
    case Receive(_) => if stream.phase.Waiting? then OnReceive(stream) else stream
    case HangUp(_) => Finished(stream)
    case _ => stream
  }

  function Advance(hub: Hub, step: Step): Hub {
    match step
    case Commit(call, author, heard) =>
      if call in hub.pending then hub
      else
        var committed := hub.(counter := hub.counter + 1);
        if heard then committed.(pending := hub.pending[call := Wakeup(author, hub.counter + 1)]) else committed
    case Revoke(call, device, heard) => OnRevoke(hub, call, device, heard)
    case SignIn(call, device, token, heard) => OnSignIn(hub, call, device, token, heard)
    case RemoveRow(device) => if device in hub.tokens then hub else hub.(rows := hub.rows - {device})
    case Announce(call) =>
      if call !in hub.pending then hub
      else
        var announcement := hub.pending[call];
        hub.(pending := hub.pending - {call},
             streams := map id | id in hub.streams :: Notified(hub.streams[id], announcement),
             announced := if announcement.Wakeup? then hub.announced + {(announcement.author, announcement.seqValue)}
                          else hub.announced)
    case Admit(id, device, token, since) =>
      if id in hub.streams || !Valid(hub, device, token) then hub
      else Put(hub, id, Stream(device, token, [], since, Admitted))
    case Restart => hub.(streams := map[], pending := map[])
    case _ =>
      if step.stream !in hub.streams then hub
      else Put(hub, step.stream, Proceed(hub, hub.streams[step.stream], step))
  }

  const NEW_HUB := Hub(0, {}, map[], {}, map[], map[], {}, {})

  function Run(steps: seq<Step>): Hub {
    if steps == [] then NEW_HUB else Advance(Run(steps[..|steps| - 1]), steps[|steps| - 1])
  }

  // ------------------------------------------------------------------ no lost wakeup

  /** Every announced commit that is news to the stream is at or below a bound. */
  ghost predicate Covers(hub: Hub, stream: Stream, bound: nat) {
    forall author, seqValue :: (author, seqValue) in hub.announced && IsNews(author, stream.device) ==>
        seqValue <= bound
  }

  ghost predicate WillCover(hub: Hub, stream: Stream) {
    match stream.phase
    case Counted(upper) => stream.events != [] || Covers(hub, stream, upper)
    case Waiting => stream.events != [] || Covers(hub, stream, stream.cursor)
    case _ => true
  }

  ghost predicate Counting(hub: Hub) {
    && (forall author, seqValue :: (author, seqValue) in hub.announced ==> seqValue <= hub.counter)
    && (forall call :: call in hub.pending && hub.pending[call].Wakeup? ==> hub.pending[call].seqValue <= hub.counter)
    && (forall id :: id in hub.streams ==> WillCover(hub, hub.streams[id]))
  }

  lemma OneStreamKeepsCovering(hub: Hub, stream: Stream, step: Step)
    requires Counting(hub) && WillCover(hub, stream)
    ensures WillCover(hub, Proceed(hub, stream, step))
  {
  }

  lemma AnnouncingKeepsCovering(hub: Hub, call: nat, id: nat)
    requires Counting(hub) && call in hub.pending && id in hub.streams
    ensures WillCover(Advance(hub, Announce(call)), Advance(hub, Announce(call)).streams[id])
  {
  }

  lemma CountersStayAhead(hub: Hub, step: Step)
    requires Counting(hub)
    ensures var after := Advance(hub, step);
            && (forall author, seqValue :: (author, seqValue) in after.announced ==> seqValue <= after.counter)
            && (forall call :: call in after.pending && after.pending[call].Wakeup? ==>
                  after.pending[call].seqValue <= after.counter)
  {
    hide WillCover, Proceed, Notified;
  }

  lemma StreamStaysCovered(hub: Hub, step: Step, id: nat)
    requires Counting(hub) && id in Advance(hub, step).streams
    ensures WillCover(Advance(hub, step), Advance(hub, step).streams[id])
  {
    if id in hub.streams {
      if step.Announce? && step.call in hub.pending {
        AnnouncingKeepsCovering(hub, step.call, id);
        hide *;
      } else {
        OneStreamKeepsCovering(hub, hub.streams[id], step);
        hide Proceed, Notified;
      }
    }
  }

  lemma AdvanceKeepsCounting(hub: Hub, step: Step)
    requires Counting(hub)
    ensures Counting(Advance(hub, step))
  {
    CountersStayAhead(hub, step);
    forall id | id in Advance(hub, step).streams
      ensures WillCover(Advance(hub, step), Advance(hub, step).streams[id])
    {
      StreamStaysCovered(hub, step, id);
      hide *;
    }
    hide WillCover, Advance;
  }

  lemma {:induction false} EveryRunCounts(steps: seq<Step>)
    ensures Counting(Run(steps))
  {
    if steps != [] {
      hide Counting, Advance;
      EveryRunCounts(steps[..|steps| - 1]);
      AdvanceKeepsCounting(Run(steps[..|steps| - 1]), steps[|steps| - 1]);
    }
  }

  /**
   No wakeup is lost: whenever a stream waits on an empty channel, its cursor covers every commit
   already announced by another device or by the administrator, whatever was coalesced and whatever
   raced its reads.
   */
  lemma AWaitingStreamIsUpToDate(steps: seq<Step>, id: nat, author: string, seqValue: nat)
    requires id in Run(steps).streams && Run(steps).streams[id].phase.Waiting? && Run(steps).streams[id].events == []
    requires (author, seqValue) in Run(steps).announced && (author == "" || author != Run(steps).streams[id].device)
    ensures seqValue <= Run(steps).streams[id].cursor
  {
    EveryRunCounts(steps);
    hide Run;
    assert WillCover(Run(steps), Run(steps).streams[id]);
  }

  /** The pages a stream writes are the ones a pull gives: their ends fit, whatever commits between the reads. */
  lemma APulledPageFits(upper: nat, atBoundary: Rows, atRead: Rows, query: Query, sizes: Sizes)
    ensures var result := SelectChangePage(upper, atBoundary, atRead, query, sizes);
            result.Ok? ==>
              && PageFits(query.since, result.value.cursor, upper)
              && (result.value.hasMore <==> result.value.cursor < upper)
  {
    APageWithMoreToComeAdvances(upper, atBoundary, atRead, query, sizes);
    hide SelectChangePage;
  }

  // ------------------------------------------------------------------ no stream outlives its credential

  ghost predicate UrgentlyPending(hub: Hub, device: string) {
    exists call :: call in hub.pending && hub.pending[call].Urgently? && hub.pending[call].device == device
  }

  /** Past its second check a stream has a valid token, or is about to be told that it has not. */
  ghost predicate Credited(hub: Hub, stream: Stream) {
    Listening(stream) && !stream.phase.Subscribed? ==>
      || Valid(hub, stream.device, stream.token)
      || UrgentlyPending(hub, stream.device)
      || (stream.events != [] && Urgent(stream.events[0]))
      || stream.token in hub.unheard
  }

  ghost predicate Guarded(hub: Hub) {
    && (forall device :: device in hub.tokens ==> hub.tokens[device] in hub.spent)
    && (forall id :: id in hub.streams ==> hub.streams[id].token in hub.spent && Credited(hub, hub.streams[id]))
    && (forall call :: call in hub.pending && hub.pending[call].Urgently? ==> Urgent(hub.pending[call].event))
    && (forall id :: id in hub.streams ==> OneSlot(hub.streams[id].events))
  }

  lemma PendingStays(hub: Hub, after: Hub, device: string)
    requires forall call :: call in hub.pending ==> call in after.pending && after.pending[call] == hub.pending[call]
    ensures UrgentlyPending(hub, device) ==> UrgentlyPending(after, device)
  {
  }

  /** The withdrawal itself: the device's streams are about to be told, or what it lost was never heard of. */
  lemma WithdrawingCredits(hub: Hub, call: nat, device: string, event: Event, lost: set<string>, heard: bool)
    requires call !in hub.pending
    ensures UrgentlyPending(Withdrawn(hub, call, device, event, lost, heard), device) ||
            lost <= Withdrawn(hub, call, device, event, lost, heard).unheard
  {
    if heard {
      assert Withdrawn(hub, call, device, event, lost, heard).pending[call].Urgently?;
    }
  }

  lemma TokenStepKeepsCredited(hub: Hub, step: Step, stream: Stream)
    requires Guarded(hub) && Credited(hub, stream) && stream.token in hub.spent
    requires step.Revoke? || step.SignIn? || step.RemoveRow? || step.Commit? || step.Admit?
    ensures Credited(Advance(hub, step), stream)
  {
    hide Guarded, Urgent;
    var after := Advance(hub, step);
    PendingStays(hub, after, stream.device);
    if step.Revoke? && step.device in hub.rows && step.call !in hub.pending {
      WithdrawingCredits(hub.(tokens := hub.tokens - {step.device}), step.call, step.device, Revoked,
                         Losing(hub, step.device), step.heard);
    }
    if step.SignIn? && step.call !in hub.pending && step.token !in hub.spent {
      WithdrawingCredits(hub.(rows := hub.rows + {step.device}, tokens := hub.tokens[step.device := step.token],
                              spent := hub.spent + {step.token}),
                         step.call, step.device, Disconnected, Losing(hub, step.device), step.heard);
    }
    hide UrgentlyPending;
  }

  /** The call that was pending is now in the channel; any other is still pending. */
  lemma AnnouncingKeepsCredited(hub: Hub, call: nat, stream: Stream)
    requires Guarded(hub) && Credited(hub, stream) && call in hub.pending
    ensures Credited(Advance(hub, Announce(call)), Notified(stream, hub.pending[call]))
  {
    var after := Advance(hub, Announce(call));
    var announcement := hub.pending[call];
    if UrgentlyPending(hub, stream.device) && !(announcement.Urgently? && announcement.device == stream.device) {
      var other :| other in hub.pending && hub.pending[other].Urgently? && hub.pending[other].device == stream.device;
      assert other in after.pending && after.pending[other] == hub.pending[other];
      assert UrgentlyPending(after, stream.device);
    }
    hide UrgentlyPending;
  }

  lemma ProceedingKeepsCredited(hub: Hub, stream: Stream, step: Step)
    requires Credited(hub, stream) && OneSlot(stream.events)
    ensures Credited(hub, Proceed(hub, stream, step)) && OneSlot(Proceed(hub, stream, step).events)
    ensures Proceed(hub, stream, step).token == stream.token
  {
    hide UrgentlyPending;
  }

  lemma CreditedDependsOn(hub: Hub, after: Hub, stream: Stream)
    requires Credited(hub, stream)
    requires after.tokens == hub.tokens && after.pending == hub.pending && after.unheard == hub.unheard
    ensures Credited(after, stream)
  {
  }

  lemma StreamStepKeepsGuarded(hub: Hub, step: Step)
    requires Guarded(hub)
    requires step.Subscribe? || step.Recheck? || step.ReadCounter? || step.WritePage? || step.Receive? || step.HangUp?
    ensures Guarded(Advance(hub, step))
  {
    var after := Advance(hub, step);
    forall id | id in after.streams
      ensures after.streams[id].token in after.spent && Credited(after, after.streams[id]) &&
                OneSlot(after.streams[id].events)
    {
      if id == step.stream {
        ProceedingKeepsCredited(hub, hub.streams[id], step);
        hide Proceed, Credited;
      } else {
        hide Proceed, Credited;
      }
      CreditedDependsOn(hub, after, after.streams[id]);
    }
    hide Credited, Proceed, Urgent;
  }

  lemma AnnounceKeepsGuarded(hub: Hub, call: nat)
    requires Guarded(hub)
    ensures Guarded(Advance(hub, Announce(call)))
  {
    var after := Advance(hub, Announce(call));
    if call in hub.pending {
      forall id | id in after.streams
        ensures after.streams[id].token in after.spent && Credited(after, after.streams[id]) &&
                  OneSlot(after.streams[id].events)
      {
        AnnouncingKeepsCredited(hub, call, hub.streams[id]);
      }
      hide Credited, Notified;
    }
  }

  lemma TokenStepKeepsBooks(hub: Hub, step: Step)
    requires Guarded(hub)
    requires step.Revoke? || step.SignIn? || step.RemoveRow? || step.Commit? || step.Admit? || step.Restart?
    ensures var after := Advance(hub, step);
            && hub.spent <= after.spent
            && (forall device :: device in after.tokens ==> after.tokens[device] in after.spent)
            && (forall call :: call in after.pending && after.pending[call].Urgently? ==>
                Urgent(after.pending[call].event))
  {
    hide Credited;
  }

  /** A stream the step admits, or one it found. */
  lemma TokenStepStreams(hub: Hub, step: Step, id: nat)
    requires step.Revoke? || step.SignIn? || step.RemoveRow? || step.Commit? || step.Admit? || step.Restart?
    requires id in Advance(hub, step).streams
    ensures var stream := Advance(hub, step).streams[id];
            || (id in hub.streams && stream == hub.streams[id])
            || (stream.phase.Admitted? && stream.events == [] && Valid(hub, stream.device, stream.token))
  {
  }

  lemma TokenStepKeepsGuarded(hub: Hub, step: Step)
    requires Guarded(hub)
    requires step.Revoke? || step.SignIn? || step.RemoveRow? || step.Commit? || step.Admit? || step.Restart?
    ensures Guarded(Advance(hub, step))
  {
    var after := Advance(hub, step);
    TokenStepKeepsBooks(hub, step);
    forall id | id in after.streams
      ensures after.streams[id].token in after.spent && Credited(after, after.streams[id]) &&
                OneSlot(after.streams[id].events)
    {
      TokenStepStreams(hub, step, id);
      if id in hub.streams && after.streams[id] == hub.streams[id] && !step.Restart? {
        TokenStepKeepsCredited(hub, step, hub.streams[id]);
        hide Credited, Advance;
      } else {
        assert !step.Restart?;
        hide Advance;
      }
    }
    hide Credited, Advance, Urgent;
  }

  lemma AdvanceKeepsGuarded(hub: Hub, step: Step)
    requires Guarded(hub)
    ensures Guarded(Advance(hub, step))
  {
    hide Guarded, Advance;
    match step {
      case Announce(call) => AnnounceKeepsGuarded(hub, call);
      case Revoke(_, _, _) => TokenStepKeepsGuarded(hub, step);
      case SignIn(_, _, _, _) => TokenStepKeepsGuarded(hub, step);
      case Commit(_, _, _) => TokenStepKeepsGuarded(hub, step);
      case RemoveRow(_) => TokenStepKeepsGuarded(hub, step);
      case Admit(_, _, _, _) => TokenStepKeepsGuarded(hub, step);
      case Restart => TokenStepKeepsGuarded(hub, step);
      case _ => StreamStepKeepsGuarded(hub, step);
    }
  }

  lemma {:induction false} EveryRunIsGuarded(steps: seq<Step>)
    ensures Guarded(Run(steps))
  {
    if steps != [] {
      hide Guarded, Advance;
      EveryRunIsGuarded(steps[..|steps| - 1]);
      AdvanceKeepsGuarded(Run(steps[..|steps| - 1]), steps[|steps| - 1]);
    }
  }

  /**
   No stream outlives its credential: in every interleaving of subscribing, checking again, revoking and
   signing in, a stream past its second check has a valid token, or the broker call that ends it is
   still to come, or an urgent event is waiting for it; unless that very token was withdrawn by a change
   that committed while its caller heard that it failed.
   */
  lemma NoStreamOutlivesItsCredential(steps: seq<Step>, id: nat)
    requires var hub := Run(steps);
             id in hub.streams && Listening(hub.streams[id]) && !hub.streams[id].phase.Subscribed?
    ensures var hub := Run(steps);
            var stream := hub.streams[id];
            || Valid(hub, stream.device, stream.token)
            || UrgentlyPending(hub, stream.device)
            || (stream.events != [] && Urgent(stream.events[0]))
            || stream.token in hub.unheard
  {
    EveryRunIsGuarded(steps);
    hide Run, UrgentlyPending;
    assert Credited(Run(steps), Run(steps).streams[id]);
  }

  /** Nothing displaces an urgent event: until its own stream acts, only another urgent one takes its place. */
  lemma AnUrgentEventStays(hub: Hub, step: Step, id: nat)
    requires Guarded(hub) && id in hub.streams && hub.streams[id].events != [] && Urgent(hub.streams[id].events[0])
    requires !step.Restart?
    requires step.Receive? || step.HangUp? || step.Subscribe? || step.Recheck? ==> step.stream != id
    ensures var after := Advance(hub, step);
            id in after.streams && after.streams[id].events != [] && Urgent(after.streams[id].events[0])
  {
    hide Credited;
  }

  // ------------------------------------------------------------------ the tokens nobody heard of

  /** Tokens are never shared or issued twice, and one withdrawn unheard works for nobody. */
  ghost predicate TokensApart(hub: Hub) {
    && (forall device :: device in hub.tokens ==> device in hub.rows && hub.tokens[device] in hub.spent)
    && (forall a, b :: a in hub.tokens && b in hub.tokens && a != b ==> hub.tokens[a] != hub.tokens[b])
    && hub.unheard <= hub.spent
    && (forall device :: device in hub.tokens ==> hub.tokens[device] !in hub.unheard)
  }

  lemma RevokingKeepsTokensApart(hub: Hub, call: nat, device: string, heard: bool)
    requires TokensApart(hub)
    ensures TokensApart(OnRevoke(hub, call, device, heard))
  {
  }

  lemma SigningInKeepsTokensApart(hub: Hub, call: nat, device: string, token: string, heard: bool)
    requires TokensApart(hub)
    ensures TokensApart(OnSignIn(hub, call, device, token, heard))
  {
  }

  lemma AdvanceKeepsTokensApart(hub: Hub, step: Step)
    requires TokensApart(hub)
    ensures TokensApart(Advance(hub, step))
  {
    match step {
      case Revoke(call, device, heard) =>
        hide OnRevoke, TokensApart;
        RevokingKeepsTokensApart(hub, call, device, heard);
      case SignIn(call, device, token, heard) =>
        hide OnSignIn, TokensApart;
        SigningInKeepsTokensApart(hub, call, device, token, heard);
      case _ =>
        hide Proceed, Notified;
    }
  }

  lemma {:induction false} EveryRunKeepsTokensApart(steps: seq<Step>)
    ensures TokensApart(Run(steps))
  {
    if steps != [] {
      hide Advance, TokensApart;
      EveryRunKeepsTokensApart(steps[..|steps| - 1]);
      AdvanceKeepsTokensApart(Run(steps[..|steps| - 1]), steps[|steps| - 1]);
    }
  }

  /** The exception is about dead tokens alone: a device that signs in again is protected like any other. */
  lemma AnUnheardTokenWorksForNobody(steps: seq<Step>, device: string, token: string)
    requires token in Run(steps).unheard
    ensures !Valid(Run(steps), device, token)
  {
    EveryRunKeepsTokensApart(steps);
    hide Run;
  }

  // ------------------------------------------------------------------ exactly who is told

  /** An urgent event is waiting for the stream, or the call that brings one is still to come. */
  ghost predicate Told(hub: Hub, stream: Stream) {
    UrgentlyPending(hub, stream.device) || (stream.events != [] && Urgent(stream.events[0]))
  }

  /** A revocation of the device, or a sign-in that replaces its token, that its caller hears of. */
  predicate HeardWithdrawal(hub: Hub, step: Step, device: string) {
    match step
    case Revoke(call, other, heard) => other == device && heard && call !in hub.pending && device in hub.rows
    case SignIn(call, other, token, heard) => other == device && heard && call !in hub.pending && token !in hub.spent
    case _ => false
  }

  lemma AnnouncingKeepsTold(hub: Hub, call: nat, id: nat)
    requires Guarded(hub) && call in hub.pending && id in hub.streams && Listening(hub.streams[id])
    ensures var after := Advance(hub, Announce(call));
            id in after.streams && (Told(after, after.streams[id]) <==> Told(hub, hub.streams[id]))
  {
    hide Credited;
    var after := Advance(hub, Announce(call));
    var stream := hub.streams[id];
    if other :|
         && other in hub.pending && other != call
         && hub.pending[other].Urgently? && hub.pending[other].device == stream.device
    {
      assert other in after.pending && after.pending[other] == hub.pending[other];
      assert UrgentlyPending(after, stream.device);
    }
    if UrgentlyPending(after, stream.device) {
      var other :| && other in after.pending
                   && after.pending[other].Urgently? && after.pending[other].device == stream.device;
      assert other in hub.pending && hub.pending[other] == after.pending[other];
    }
  }

  /** A database change: it adds a call for the device if its caller hears of it, and takes none away. */
  lemma PendingByOneStep(hub: Hub, step: Step, device: string)
    requires step.Revoke? || step.SignIn? || step.Commit?
    ensures UrgentlyPending(Advance(hub, step), device) <==>
            UrgentlyPending(hub, device) || HeardWithdrawal(hub, step, device)
    ensures Advance(hub, step).streams == hub.streams
  {
    var after := Advance(hub, step);
    if HeardWithdrawal(hub, step, device) {
      assert step.call in after.pending && after.pending[step.call].Urgently?;
    }
    if call :| call in hub.pending && hub.pending[call].Urgently? && hub.pending[call].device == device {
      assert call in after.pending && after.pending[call] == hub.pending[call];
    }
    if call :| call in after.pending && after.pending[call].Urgently? && after.pending[call].device == device {
      assert HeardWithdrawal(hub, step, device) || (call in hub.pending && hub.pending[call] == after.pending[call]);
    }
  }

  /** A stream's own steps, as long as it goes on listening, and the steps that concern no stream. */
  lemma QuietStepKeepsTold(hub: Hub, step: Step, id: nat)
    requires !step.Revoke? && !step.SignIn? && !step.Commit? && !step.Announce?
    requires id in hub.streams && Listening(hub.streams[id]) && OneSlot(hub.streams[id].events)
    requires id in Advance(hub, step).streams && Listening(Advance(hub, step).streams[id])
    ensures var after := Advance(hub, step);
            && after.streams[id].device == hub.streams[id].device
            && (Told(after, after.streams[id]) <==> Told(hub, hub.streams[id]))
  {
    assert !step.Restart?;
    assert Advance(hub, step).pending == hub.pending;
    hide Valid;
  }

  /** One step, for a stream that listens before and after it. */
  lemma ToldByOneStep(hub: Hub, step: Step, id: nat)
    requires Guarded(hub) && id in hub.streams && Listening(hub.streams[id])
    requires id in Advance(hub, step).streams && Listening(Advance(hub, step).streams[id])
    ensures var after := Advance(hub, step);
            && after.streams[id].device == hub.streams[id].device
            && (Told(after, after.streams[id]) <==>
                  Told(hub, hub.streams[id]) || HeardWithdrawal(hub, step, hub.streams[id].device))
  {
    if step.Announce? {
      if step.call in hub.pending {
        AnnouncingKeepsTold(hub, step.call, id);
        hide Guarded, Told;
      }
    } else if step.Revoke? || step.SignIn? || step.Commit? {
      PendingByOneStep(hub, step, hub.streams[id].device);
      hide Guarded, Advance, UrgentlyPending, HeardWithdrawal;
    } else {
      QuietStepKeepsTold(hub, step, id);
      hide Guarded, Advance, Told;
    }
  }

  lemma RunOneMore(steps: seq<Step>, n: nat)
    requires n < |steps|
    ensures Run(steps[..n + 1]) == Advance(Run(steps[..n]), steps[n])
  {
    hide Advance;
    assert steps[..n + 1][..n] == steps[..n];
  }

  ghost predicate ListensAt(steps: seq<Step>, n: nat, id: nat) {
    n <= |steps| && id in Run(steps[..n]).streams && Listening(Run(steps[..n]).streams[id])
  }

  /** The stream subscribed at step `start`, and has listened ever since, up to step `n`. */
  ghost predicate SubscribedAt(steps: seq<Step>, n: nat, id: nat, start: nat) {
    && start < n <= |steps| && steps[start] == Subscribe(id)
    && id in Run(steps[..start]).streams && Run(steps[..start]).streams[id].phase.Admitted?
    && ListensAt(steps, n, id) && (forall k :: start < k <= n ==> ListensAt(steps, k, id))
  }

  lemma ListeningComesFromSubscribing(hub: Hub, step: Step, id: nat)
    requires id in Advance(hub, step).streams && Listening(Advance(hub, step).streams[id])
    ensures || (id in hub.streams && Listening(hub.streams[id]))
            || (step == Subscribe(id) && id in hub.streams && hub.streams[id].phase.Admitted?)
  {
  }

  lemma {:induction false} EveryListenerSubscribed(steps: seq<Step>, n: nat, id: nat)
    requires ListensAt(steps, n, id)
    ensures exists start :: SubscribedAt(steps, n, id, start)
  {
    if n > 0 {
      RunOneMore(steps, n - 1);
      ListeningComesFromSubscribing(Run(steps[..n - 1]), steps[n - 1], id);
      hide Run, Advance;
      if ListensAt(steps, n - 1, id) {
        EveryListenerSubscribed(steps, n - 1, id);
        var start :| SubscribedAt(steps, n - 1, id, start);
        assert SubscribedAt(steps, n, id, start);
      } else {
        assert SubscribedAt(steps, n, id, n - 1);
      }
    }
  }

  /** A withdrawal of the device was heard of after the stream subscribed. */
  ghost predicate HeardSince(steps: seq<Step>, n: nat, start: nat, device: string) {
    exists k :: start < k < n <= |steps| && HeardWithdrawal(Run(steps[..k]), steps[k], device)
  }

  lemma HeardSinceGrows(steps: seq<Step>, n: nat, start: nat, device: string)
    requires start < n < |steps|
    ensures HeardSince(steps, n + 1, start, device) <==>
            HeardSince(steps, n, start, device) || HeardWithdrawal(Run(steps[..n]), steps[n], device)
  {
    hide Run, HeardWithdrawal;
  }

  /** Subscribing empties the channel, so what a stream starts with is what was still to come. */
  lemma ToldAtSubscription(steps: seq<Step>, id: nat, start: nat)
    requires start < |steps| && steps[start] == Subscribe(id)
    requires id in Run(steps[..start]).streams && Run(steps[..start]).streams[id].phase.Admitted?
    ensures var before, after := Run(steps[..start]), Run(steps[..start + 1]);
            && id in after.streams && after.streams[id].device == before.streams[id].device
            && (Told(after, after.streams[id]) <==> UrgentlyPending(before, before.streams[id].device))
  {
    RunOneMore(steps, start);
    hide Run;
  }

  /** One more step of a run in which the stream goes on listening. */
  lemma ToldOneStepLater(steps: seq<Step>, n: nat, id: nat)
    requires n < |steps| && ListensAt(steps, n, id) && ListensAt(steps, n + 1, id)
    ensures var before, after := Run(steps[..n]), Run(steps[..n + 1]);
            && after.streams[id].device == before.streams[id].device
            && (Told(after, after.streams[id]) <==>
                  Told(before, before.streams[id]) || HeardWithdrawal(before, steps[n], before.streams[id].device))
  {
    RunOneMore(steps, n);
    EveryRunIsGuarded(steps[..n]);
    hide Run, Advance, Told, Guarded, HeardWithdrawal, Listening;
    ToldByOneStep(Run(steps[..n]), steps[n], id);
  }

  lemma SubscribedBefore(steps: seq<Step>, n: nat, id: nat, start: nat)
    requires SubscribedAt(steps, n, id, start)
    ensures start < |steps| && steps[start] == Subscribe(id)
    ensures id in Run(steps[..start]).streams && Run(steps[..start]).streams[id].phase.Admitted?
    ensures n == start + 1 || (SubscribedAt(steps, n - 1, id, start) && ListensAt(steps, n - 1, id))
  {
    hide Run, ListensAt;
  }

  lemma NothingHeardYet(steps: seq<Step>, start: nat, device: string)
    ensures !HeardSince(steps, start + 1, start, device)
  {
  }

  /** The stream is told to stop exactly when one of two things was heard of. */
  ghost predicate ToldAsHeard(steps: seq<Step>, n: nat, id: nat, start: nat) {
    && start <= |steps| && id in Run(steps[..start]).streams && ListensAt(steps, n, id)
    && var device, stream := Run(steps[..start]).streams[id].device, Run(steps[..n]).streams[id];
       && stream.device == device
       && (Told(Run(steps[..n]), stream) <==>
             HeardSince(steps, n, start, device) || UrgentlyPending(Run(steps[..start]), device))
  }

  lemma ToldAsHeardAtFirst(steps: seq<Step>, id: nat, start: nat)
    requires SubscribedAt(steps, start + 1, id, start)
    ensures ToldAsHeard(steps, start + 1, id, start)
  {
    SubscribedBefore(steps, start + 1, id, start);
    ToldAtSubscription(steps, id, start);
    NothingHeardYet(steps, start, Run(steps[..start]).streams[id].device);
    hide Run, Told, UrgentlyPending, HeardSince;
  }

  lemma ToldAsHeardLater(steps: seq<Step>, n: nat, id: nat, start: nat)
    requires start < n < |steps| && ToldAsHeard(steps, n, id, start) && ListensAt(steps, n + 1, id)
    ensures ToldAsHeard(steps, n + 1, id, start)
  {
    hide Run, Told, UrgentlyPending, HeardSince, HeardWithdrawal;
    ToldOneStepLater(steps, n, id);
    HeardSinceGrows(steps, n, start, Run(steps[..start]).streams[id].device);
  }

  /**
   Exactly who is told to stop: a stream that listens has an urgent event waiting or on its way if and
   only if a withdrawal of its device was heard of since it subscribed, or was heard of before and its
   call was still to come when it subscribed.
   */
  lemma {:induction false} AStreamIsToldExactlyWhatWasHeard(steps: seq<Step>, n: nat, id: nat, start: nat)
    requires SubscribedAt(steps, n, id, start)
    ensures ToldAsHeard(steps, n, id, start)
  {
    hide Run, SubscribedAt, ToldAsHeard, ListensAt;
    SubscribedBefore(steps, n, id, start);
    SubscribedListens(steps, n, id, start);
    if n == start + 1 {
      ToldAsHeardAtFirst(steps, id, start);
    } else {
      AStreamIsToldExactlyWhatWasHeard(steps, n - 1, id, start);
      ToldAsHeardLater(steps, n - 1, id, start);
    }
  }

  lemma SubscribedListens(steps: seq<Step>, n: nat, id: nat, start: nat)
    requires SubscribedAt(steps, n, id, start)
    ensures start < n <= |steps| && ListensAt(steps, n, id)
  {
    hide Run, ListensAt;
  }

  /**
   A stream past its second check whose token no longer works is told to stop if and only if a withdrawal
   of its device was heard of since it subscribed, or its call was still to come then. Otherwise that very
   token is one whose withdrawal nobody heard of.
   */
  lemma ADeadTokenIsToldUnlessUnheard(steps: seq<Step>, n: nat, id: nat, start: nat)
    requires SubscribedAt(steps, n, id, start) && ListensAt(steps, n, id)
    requires var hub := Run(steps[..n]);
             !hub.streams[id].phase.Subscribed? && !Valid(hub, hub.streams[id].device, hub.streams[id].token)
    ensures var hub := Run(steps[..n]);
            var stream := hub.streams[id];
            && (Told(hub, stream) <==>
                  HeardSince(steps, n, start, stream.device) || UrgentlyPending(Run(steps[..start]), stream.device))
            && (!Told(hub, stream) ==> stream.token in hub.unheard)
  {
    AStreamIsToldExactlyWhatWasHeard(steps, n, id, start);
    NoStreamOutlivesItsCredential(steps[..n], id);
    hide Run, UrgentlyPending, HeardSince;
  }

  // ------------------------------------------------------------------ why the last case is there

  lemma OneMore(steps: seq<Step>, step: Step)
    ensures Run(steps + [step]) == Advance(Run(steps), step)
  {
    hide Advance;
    assert (steps + [step])[..|steps|] == steps;
  }

  /** A revocation that commits while its caller hears a failure is announced to nobody: the stream it
      should have ended goes on reading, with nothing on its way to stop it. */
  lemma AnUnheardRevocationStopsNothing()
    ensures var steps := [SignIn(0, "d", "t", true), Announce(0), Admit(1, "d", "t", 0), Subscribe(1), Recheck(1),
                          Revoke(2, "d", false)];
            var hub := Run(steps);
            && 1 in hub.streams && hub.streams[1].phase.Reading? && !Valid(hub, "d", "t")
            && hub.pending == map[] && hub.streams[1].events == []
  {
    var signedIn := [SignIn(0, "d", "t", true), Announce(0)];
    OneMore([], SignIn(0, "d", "t", true));
    OneMore([SignIn(0, "d", "t", true)], Announce(0));
    OneMore(signedIn, Admit(1, "d", "t", 0));
    OneMore(signedIn + [Admit(1, "d", "t", 0)], Subscribe(1));
    OneMore(signedIn + [Admit(1, "d", "t", 0), Subscribe(1)], Recheck(1));
    OneMore(signedIn + [Admit(1, "d", "t", 0), Subscribe(1), Recheck(1)], Revoke(2, "d", false));
    var afterSignIn := Advance(Advance(NEW_HUB, SignIn(0, "d", "t", true)), Announce(0));
    assert afterSignIn == NEW_HUB.(rows := {"d"}, tokens := map["d" := "t"], spent := {"t"});
    assert [] + [SignIn(0, "d", "t", true)] == [SignIn(0, "d", "t", true)];
    assert [SignIn(0, "d", "t", true)] + [Announce(0)] == signedIn;
    assert signedIn + [Admit(1, "d", "t", 0)] + [Subscribe(1)] == signedIn + [Admit(1, "d", "t", 0), Subscribe(1)];
    assert signedIn + [Admit(1, "d", "t", 0), Subscribe(1)] + [Recheck(1)] ==
           signedIn + [Admit(1, "d", "t", 0), Subscribe(1), Recheck(1)];
    assert signedIn + [Admit(1, "d", "t", 0), Subscribe(1), Recheck(1)] + [Revoke(2, "d", false)] ==
           [SignIn(0, "d", "t", true), Announce(0), Admit(1, "d", "t", 0), Subscribe(1), Recheck(1),
            Revoke(2, "d", false)];
    hide Run;
  }
}
