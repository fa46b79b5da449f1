/** One run of a bot fleet as a step system. The run spawns its bots, waits for them, closes
    the metrics channel and waits for the publisher; bots and publisher run beside it. Every
    interleaving of the atomic steps is a run. */
module FleetRun {
  import opened Options
  import opened Publisher

  const CAPACITY := 65536

  /** A bot between spawn and exit. A bot in a send stands there until the channel takes the
      metric: no end of the context frees it. When a bot returns its two deferred calls run in
      turn: first the active count goes down, then the wait group. */
  datatype Bot = Running | Sending(metric: Metric) | Leaving | Gone

  /** Where the run is inside one spawn: before it, after the wait group was raised, after
      the active count was raised too. */
  datatype Spawn = Between | Joined | Counted

  datatype Phase = Spawning(left: nat, at: Spawn) | Waiting | Waited | Closed | Returned

  datatype Fleet = Fleet(phase: Phase, bots: seq<Bot>, waitGroup: int, active: int,
                         channel: seq<Metric>, held: Option<Metric>,
                         offered: seq<Metric>, sent: seq<Metric>, sentOnClosed: bool,
                         publisher: State, publisherDone: bool)

  predicate IsClosed(f: Fleet) { f.phase.Closed? || f.phase.Returned? }

  /** The publisher, started behind the spawns, stands at its select. */
  predicate Listens(f: Fleet) { !f.phase.Spawning? && !f.publisherDone && f.held.None? }

  function Start(bots: nat): Fleet {
    Fleet(Spawning(bots, Between), [], 0, 0, [], None, [], [], false, START, false)
  }

  datatype Step =
    | Join | CountUp | Go | SpawnsDone           // the run, spawning
    | WaitOver | Close | Return                  // the run, afterwards
    | Offer(bot: nat, metric: Metric)            // a bot comes to a send
    | Send(bot: nat)                             // the channel takes its metric
    | CountDown(bot: nat) | Leave(bot: nat)      // a bot returns, whether finished or cancelled
    | Take | Stamp                               // the publisher takes a metric, then reads the active count
    | Tick | SeeClosed                           // the publisher's flushes

  datatype Outcome = To(next: Fleet) | Blocked

  /** What one step does; Blocked when the step cannot happen in this state. A full channel takes
      nothing; a send on a closed channel is recorded as the panic it would be. */
  function After(f: Fleet, s: Step): Outcome {
    match s
    case Join =>
      if f.phase.Spawning? && f.phase.left > 0 && f.phase.at.Between?
      then To(f.(phase := Spawning(f.phase.left, Joined), waitGroup := f.waitGroup + 1)) else Blocked
    case CountUp =>
      if f.phase.Spawning? && f.phase.left > 0 && f.phase.at.Joined?
      then To(f.(phase := Spawning(f.phase.left, Counted), active := f.active + 1)) else Blocked
    case Go =>
      if f.phase.Spawning? && f.phase.left > 0 && f.phase.at.Counted?
      then To(f.(phase := Spawning(f.phase.left - 1, Between), bots := f.bots + [Running])) else Blocked
    case SpawnsDone =>
      if f.phase.Spawning? && f.phase.left == 0 && f.phase.at.Between? then To(f.(phase := Waiting)) else Blocked
    case WaitOver =>
      if f.phase.Waiting? && f.waitGroup == 0 then To(f.(phase := Waited)) else Blocked
    case Close =>
      if f.phase.Waited? then To(f.(phase := Phase.Closed)) else Blocked
    case Return =>
      if f.phase.Closed? && f.publisherDone then To(f.(phase := Returned)) else Blocked
    case Offer(i, m) =>
      if i < |f.bots| && f.bots[i].Running?
      then To(f.(bots := f.bots[i := Sending(m)], offered := f.offered + [m])) else Blocked
    case Send(i) =>
      if i < |f.bots| && f.bots[i].Sending? && (IsClosed(f) || |f.channel| < CAPACITY)
      then if IsClosed(f) then To(f.(sentOnClosed := true))
           else To(f.(bots := f.bots[i := Running], channel := f.channel + [f.bots[i].metric],
                      sent := f.sent + [f.bots[i].metric]))
      else Blocked
    case CountDown(i) =>
      if i < |f.bots| && f.bots[i].Running?
      then To(f.(bots := f.bots[i := Leaving], active := f.active - 1)) else Blocked
    case Leave(i) =>
      if i < |f.bots| && f.bots[i].Leaving?
      then To(f.(bots := f.bots[i := Gone], waitGroup := f.waitGroup - 1)) else Blocked
    case Take =>
      if Listens(f) && f.channel != []
      then To(f.(channel := f.channel[1..], held := Some(f.channel[0]))) else Blocked
    case Stamp =>
      if f.held.Some?
      then To(f.(held := None, publisher := Taken(f.publisher, Received(f.held.value, f.active)))) else Blocked
    case Tick =>
      if Listens(f) then To(f.(publisher := Flushed(f.publisher))) else Blocked
    case SeeClosed =>
      if Listens(f) && IsClosed(f) && f.channel == []
      then To(f.(publisher := Flushed(f.publisher), publisherDone := true)) else Blocked
  }

  ghost predicate Run(states: seq<Fleet>, steps: seq<Step>, bots: nat) {
    && |states| == |steps| + 1
    && states[0] == Start(bots)
    && forall i {:trigger steps[i]} :: 0 <= i < |steps| ==> After(states[i], steps[i]) == To(states[i + 1])
  }

  /** How many bots still hold the wait group, how many still count as active, and how many
      stand in a send. */
  function Holding(bots: seq<Bot>): nat {
    if bots == [] then 0 else Holding(bots[..|bots| - 1]) + (if bots[|bots| - 1].Gone? then 0 else 1)
  }

  predicate IsActive(b: Bot) { b.Running? || b.Sending? }

  function Active(bots: seq<Bot>): nat {
    if bots == [] then 0 else Active(bots[..|bots| - 1]) + (if IsActive(bots[|bots| - 1]) then 1 else 0)
  }

  /** How many bots stand in a send, and how many of them with this metric. */
  function InSend(bots: seq<Bot>): nat {
    if bots == [] then 0 else InSend(bots[..|bots| - 1]) + (if bots[|bots| - 1].Sending? then 1 else 0)
  }

  function Standing(bots: seq<Bot>, m: Metric): nat {
    if bots == [] then 0
    else Standing(bots[..|bots| - 1], m) + (if bots[|bots| - 1] == Sending(m) then 1 else 0)
  }

  /** How often a metric occurs in a list. */
  function Times(ms: seq<Metric>, m: Metric): nat { multiset(ms)[m] }

  lemma {:induction false} CountsAfter(bots: seq<Bot>, i: nat, b: Bot)
    requires i < |bots|
    ensures Holding(bots[i := b]) == Holding(bots) - (if bots[i].Gone? then 0 else 1) + (if b.Gone? then 0 else 1)
    ensures Active(bots[i := b]) == Active(bots) - (if IsActive(bots[i]) then 1 else 0) + (if IsActive(b) then 1 else 0)
    ensures InSend(bots[i := b]) == InSend(bots) - (if bots[i].Sending? then 1 else 0) + (if b.Sending? then 1 else 0)
  {
    var n := |bots| - 1;
    var bots' := bots[i := b];
    if i == n {
      assert bots'[..n] == bots[..n];
    } else {
      CountsAfter(bots[..n], i, b);
      assert bots'[..n] == bots[..n][i := b];
    }
  }

  lemma {:induction false} StandingAfter(bots: seq<Bot>, i: nat, b: Bot, m: Metric)
    requires i < |bots|
    ensures Standing(bots[i := b], m)
         == Standing(bots, m) - (if bots[i] == Sending(m) then 1 else 0) + (if b == Sending(m) then 1 else 0)
  {
    var n := |bots| - 1;
    var bots' := bots[i := b];
    if i == n {
      assert bots'[..n] == bots[..n];
    } else {
      StandingAfter(bots[..n], i, b, m);
      assert bots'[..n] == bots[..n][i := b];
    }
  }

  lemma {:induction false} CountsBound(bots: seq<Bot>)
    ensures Active(bots) <= Holding(bots)
    ensures Holding(bots) == 0 <==> forall i :: 0 <= i < |bots| ==> bots[i].Gone?
  {
    if bots == [] {
    } else {
      var n := |bots| - 1;
      CountsBound(bots[..n]);
      if Holding(bots) == 0 {
        assert forall i :: 0 <= i < n ==> bots[i] == bots[..n][i];
      }
    }
  }

  lemma {:induction false} NoneStanding(bots: seq<Bot>, m: Metric)
    requires Holding(bots) == 0
    ensures Standing(bots, m) == 0
  {
    if bots == [] {
    } else {
      NoneStanding(bots[..|bots| - 1], m);
    }
  }

  lemma TimesAppend(ms: seq<Metric>, x: Metric, m: Metric)
    ensures Times(ms + [x], m) == Times(ms, m) + (if x == m then 1 else 0)
  {
    assert multiset(ms + [x]) == multiset(ms) + multiset{x};
  }

  function MetricsOf(rs: seq<Received>): (ms: seq<Metric>)
    ensures |ms| == |rs|
  {
    seq(|rs|, i requires 0 <= i < |rs| => rs[i].metric)
  }

  /** Both counters account for the bots, one spawn in progress included. */
  ghost predicate CountersAgree(f: Fleet) {
    && (f.phase.Spawning? && f.phase.left == 0 ==> f.phase.at.Between?)
    && f.waitGroup == Holding(f.bots) + (if f.phase.Spawning? && !f.phase.at.Between? then 1 else 0)
    && f.active == Active(f.bots) + (if f.phase.Spawning? && f.phase.at.Counted? then 1 else 0)
    && (f.phase.Waited? || IsClosed(f) ==> Holding(f.bots) == 0)
  }

  /** The metric the publisher has taken and not yet stamped. */
  function Held(f: Fleet): seq<Metric> { if f.held.Some? then [f.held.value] else [] }

  /** No metric is lost between the bots and the writer. */
  ghost predicate MetricsKept(f: Fleet) {
    && MetricsOf(f.publisher.received) + Held(f) + f.channel == f.sent
    && (f.held.Some? ==> !f.phase.Spawning?)
    && |f.channel| <= CAPACITY
    && Exact(f.publisher)
    && (f.publisherDone ==> IsClosed(f) && f.channel == [] && f.held.None? && f.publisher.batch == [])
    && (f.phase.Returned? ==> f.publisherDone)
  }

  /** Every metric a bot came to send was sent, or a bot still stands in a send with it. */
  ghost predicate OffersKept(f: Fleet) {
    forall m :: Times(f.sent, m) + Standing(f.bots, m) == Times(f.offered, m)
  }

  ghost predicate Inv(f: Fleet) {
    CountersAgree(f) && MetricsKept(f) && OffersKept(f) && !f.sentOnClosed
  }

  predicate IsBotStep(s: Step) { s.Offer? || s.Send? || s.CountDown? || s.Leave? }

  /** The state a bot's step puts it in. */
  function NewState(s: Step): Bot
    requires IsBotStep(s)
  {
    match s
    case Offer(_, m) => Sending(m)
    case Send(_) => Running
    case CountDown(_) => Leaving
    case Leave(_) => Gone
  }

  lemma CountsAppend(bots: seq<Bot>, b: Bot)
    ensures Holding(bots + [b]) == Holding(bots) + (if b.Gone? then 0 else 1)
    ensures Active(bots + [b]) == Active(bots) + (if IsActive(b) then 1 else 0)
    ensures InSend(bots + [b]) == InSend(bots) + (if b.Sending? then 1 else 0)
  {
    assert (bots + [b])[..|bots|] == bots;
  }

  lemma GoKeepsCounters(f: Fleet, bots: seq<Bot>, f': Fleet)
    requires CountersAgree(f) && f.phase.Spawning? && f.phase.left > 0 && f.phase.at.Counted?
    requires Holding(bots) == Holding(f.bots) + 1 && Active(bots) == Active(f.bots) + 1
    requires f' == f.(phase := Spawning(f.phase.left - 1, Between), bots := bots)
    ensures CountersAgree(f')
  {
  }

  lemma BotStepKeepsCounters(f: Fleet, s: Step)
    requires IsBotStep(s)
    requires CountersAgree(f) && After(f, s).To?
    ensures CountersAgree(After(f, s).next)
  {
    CountsAfter(f.bots, s.bot, NewState(s));
  }

  lemma StepKeepsCounters(f: Fleet, s: Step)
    requires CountersAgree(f) && After(f, s).To?
    ensures CountersAgree(After(f, s).next)
  {
    if s.Go? {
      CountsAppend(f.bots, Running);
      GoKeepsCounters(f, f.bots + [Running], After(f, s).next);
    } else if IsBotStep(s) {
      BotStepKeepsCounters(f, s);
    }
  }

  /** A bot in a send still holds the wait group, so the channel is not closed. */
  lemma SenderKeepsOpen(f: Fleet, i: nat)
    requires CountersAgree(f) && i < |f.bots| && f.bots[i].Sending?
    ensures !f.phase.Waited? && !IsClosed(f)
  {
    CountsBound(f.bots);
  }

  lemma TakeKeepsMetrics(f: Fleet)
    requires MetricsKept(f) && After(f, Take).To?
    ensures MetricsKept(After(f, Take).next)
  {
    var taken := MetricsOf(f.publisher.received);
    assert f.channel == [f.channel[0]] + f.channel[1..];
    assert taken + [f.channel[0]] + f.channel[1..] == taken + [] + f.channel;
  }

  lemma StampKeepsMetrics(f: Fleet)
    requires MetricsKept(f) && After(f, Stamp).To?
    ensures MetricsKept(After(f, Stamp).next)
  {
    var r := Received(f.held.value, f.active);
    var f' := After(f, Stamp).next;
    TakenKeepsExact(f.publisher, r);
    assert f'.publisher.received == f.publisher.received + [r];
    assert MetricsOf(f'.publisher.received) == MetricsOf(f.publisher.received) + [r.metric];
    assert MetricsOf(f.publisher.received) + [r.metric] + [] == MetricsOf(f.publisher.received) + [r.metric];
  }

  /** Putting bot i into another state with these lists keeps the account of offers. */
  lemma BotKeepsOffers(f: Fleet, i: nat, b: Bot, offered: seq<Metric>, sent: seq<Metric>, f': Fleet)
    requires OffersKept(f) && i < |f.bots|
    requires f'.bots == f.bots[i := b] && f'.offered == offered && f'.sent == sent
    requires offered == f.offered + (if b.Sending? then [b.metric] else [])
    requires sent == f.sent + (if f.bots[i].Sending? then [f.bots[i].metric] else [])
    ensures OffersKept(f')
  {
    forall m ensures Times(sent, m) + Standing(f'.bots, m) == Times(offered, m) {
      StandingAfter(f.bots, i, b, m);
      if b.Sending? { TimesAppend(f.offered, b.metric, m); } else { assert offered == f.offered; }
      if f.bots[i].Sending? { TimesAppend(f.sent, f.bots[i].metric, m); } else { assert sent == f.sent; }
    }
  }

  lemma GoKeepsOffers(f: Fleet, f': Fleet)
    requires OffersKept(f) && f'.bots == f.bots + [Running] && f'.offered == f.offered && f'.sent == f.sent
    ensures OffersKept(f')
  {
    forall m ensures Standing(f'.bots, m) == Standing(f.bots, m) {
      assert f'.bots[..|f.bots|] == f.bots;
    }
  }

  /** Steps of the bots, in which one of them changes its state. */
  lemma BotStepKeepsOffers(f: Fleet, s: Step)
    requires IsBotStep(s)
    requires OffersKept(f) && After(f, s).To? && !After(f, s).next.sentOnClosed
    ensures OffersKept(After(f, s).next)
  {
    var f' := After(f, s).next;
    BotKeepsOffers(f, s.bot, NewState(s), f'.offered, f'.sent, f');
  }

  lemma StepKeepsOffers(f: Fleet, s: Step)
    requires OffersKept(f) && After(f, s).To? && !After(f, s).next.sentOnClosed
    ensures OffersKept(After(f, s).next)
  {
    if IsBotStep(s) {
      BotStepKeepsOffers(f, s);
    } else if s.Go? {
      GoKeepsOffers(f, After(f, s).next);
    } else {
      SameOffers(f, After(f, s).next);
    }
  }

  lemma SameOffers(f: Fleet, f': Fleet)
    requires OffersKept(f) && f'.bots == f.bots && f'.offered == f.offered && f'.sent == f.sent
    ensures OffersKept(f')
  {
  }

  lemma SendKeepsMetrics(f: Fleet, i: nat)
    requires MetricsKept(f) && After(f, Send(i)).To? && !IsClosed(f)
    ensures MetricsKept(After(f, Send(i)).next)
  {
    var m, taken := f.bots[i].metric, MetricsOf(f.publisher.received) + Held(f);
    assert taken + (f.channel + [m]) == taken + f.channel + [m];
  }

  lemma StepKeepsMetrics(f: Fleet, s: Step)
    requires MetricsKept(f) && After(f, s).To? && (s.Send? ==> !IsClosed(f))
    ensures MetricsKept(After(f, s).next)
  {
    match s {
      case Send(i) => SendKeepsMetrics(f, i);
      case Take => TakeKeepsMetrics(f);
      case Stamp => StampKeepsMetrics(f);
      case Tick => FlushedKeepsExact(f.publisher);
      case SeeClosed => FlushedKeepsExact(f.publisher);
      case _ =>
    }
  }

  lemma StepKeepsInv(f: Fleet, s: Step)
    requires Inv(f) && After(f, s).To?
    ensures Inv(After(f, s).next)
  {
    if s.Send? { SenderKeepsOpen(f, s.bot); }
    StepKeepsCounters(f, s);
    StepKeepsMetrics(f, s);
    StepKeepsOffers(f, s);
  }

  lemma {:induction false} RunKeepsInv(states: seq<Fleet>, steps: seq<Step>, bots: nat, n: nat)
    requires Run(states, steps, bots) && n <= |steps|
    ensures Inv(states[n])
  {
    if n == 0 {
    } else {
      RunKeepsInv(states, steps, bots, n - 1);
      assert After(states[n - 1], steps[n - 1]) == To(states[n]);
      StepKeepsInv(states[n - 1], steps[n - 1]);
    }
  }

  /** On every interleaving: no send meets a closed channel, the counters stay in order, and
      the wait group never goes below zero. */
  lemma ShutdownIsSafe(states: seq<Fleet>, steps: seq<Step>, bots: nat, n: nat)
    requires Run(states, steps, bots) && n <= |steps|
    ensures !states[n].sentOnClosed
    ensures 0 <= states[n].active <= states[n].waitGroup
  {
    RunKeepsInv(states, steps, bots, n);
    CountsBound(states[n].bots);
  }

  /** A send waits exactly while the channel holds 65536 metrics. */
  lemma SendWaitsIff(f: Fleet, i: nat)
    requires Inv(f) && i < |f.bots| && f.bots[i].Sending?
    ensures After(f, Send(i)).Blocked? <==> |f.channel| == 65536
  {
    SenderKeepsOpen(f, i);
  }

  /** The bots that still count as active. */
  ghost function ActiveOnes(bots: seq<Bot>): (ones: set<int>)
    ensures forall i :: i in ones <==> 0 <= i < |bots| && (bots[i].Running? || bots[i].Sending?)
  {
    set i | 0 <= i < |bots| && (bots[i].Running? || bots[i].Sending?)
  }

  lemma {:induction false} ActiveIs(bots: seq<Bot>)
    ensures Active(bots) == |ActiveOnes(bots)|
  {
    if bots == [] {
      assert ActiveOnes(bots) == {};
    } else {
      var n := |bots| - 1;
      ActiveIs(bots[..n]);
      assert ActiveOnes(bots) == ActiveOnes(bots[..n]) + (if IsActive(bots[n]) then {n as int} else {});
    }
  }

  /** The count stamped on a metric: the bots that have not begun to return at that moment. It
      is stamped on the metric taken before, and metrics are stamped in the order they came. */
  lemma StampIs(states: seq<Fleet>, steps: seq<Step>, bots: nat, k: nat)
    requires Run(states, steps, bots) && k < |steps| && steps[k] == Stamp
    ensures var f := states[k];
            var n := |set i | 0 <= i < |f.bots| && (f.bots[i].Running? || f.bots[i].Sending?)|;
            f.held.Some? && states[k + 1].publisher.received == f.publisher.received + [Received(f.held.value, n)]
  {
    RunKeepsInv(states, steps, bots, k);
    ActiveIs(states[k].bots);
  }

  /** Bots started and bots to come. */
  function Spawned(f: Fleet): nat { |f.bots| + (if f.phase.Spawning? then f.phase.left else 0) }

  lemma StepKeepsSpawned(f: Fleet, s: Step)
    requires CountersAgree(f) && After(f, s).To?
    ensures Spawned(After(f, s).next) == Spawned(f)
  {
  }

  /** Every bot of the fleet is started, and no other; at the return all of them are gone. */
  lemma {:induction false} AllSpawned(states: seq<Fleet>, steps: seq<Step>, bots: nat, n: nat)
    requires Run(states, steps, bots) && n <= |steps|
    ensures Spawned(states[n]) == bots
    ensures states[n].phase.Returned? ==>
              |states[n].bots| == bots && forall i :: 0 <= i < bots ==> states[n].bots[i].Gone?
  {
    RunKeepsInv(states, steps, bots, n);
    CountsBound(states[n].bots);
    if n > 0 {
      AllSpawned(states, steps, bots, n - 1);
      RunKeepsInv(states, steps, bots, n - 1);
      StepKeepsSpawned(states[n - 1], steps[n - 1]);
    }
  }

  /** When the run returns, every metric a bot came to send has been sent, all that was sent has
      been published, in the order sent, no bot is active, and the channel is empty. */
  lemma ReturnIsComplete(states: seq<Fleet>, steps: seq<Step>, bots: nat, n: nat)
    requires Run(states, steps, bots) && n <= |steps| && states[n].phase.Returned?
    ensures var f := states[n];
            && f.active == 0 && f.waitGroup == 0 && f.channel == []
            && (forall m :: Times(f.sent, m) == Times(f.offered, m))
            && MetricsOf(f.publisher.received) == f.sent
            && f.publisher.written == Published(f.publisher.received)
  {
    RunKeepsInv(states, steps, bots, n);
    var f := states[n];
    CountsBound(f.bots);
    forall m ensures Times(f.sent, m) == Times(f.offered, m) { NoneStanding(f.bots, m); }
    assert MetricsOf(f.publisher.received) + [] == MetricsOf(f.publisher.received);
    assert f.publisher.written + [] == f.publisher.written;
  }

  /** No message is missing at the end exactly when every metric sent could be marshalled. */
  lemma NothingMissingIff(states: seq<Fleet>, steps: seq<Step>, bots: nat, n: nat)
    requires Run(states, steps, bots) && n <= |steps| && states[n].phase.Returned?
    ensures |states[n].publisher.written| == 2 * |states[n].sent|
       <==> forall j :: 0 <= j < |states[n].sent| ==> states[n].sent[j].fillPrice.Finite?
  {
    ReturnIsComplete(states, steps, bots, n);
    var f := states[n];
    CompleteIff(f.publisher.received);
    assert forall j :: 0 <= j < |f.sent| ==> f.sent[j] == f.publisher.received[j].metric;
  }

  /** No reachable state is a deadlock: until the run has returned, the run itself, the
      publisher, or a bot without coming to another send can take a step that is no tick. A bot
      that stands in a send is let on by the channel or, when that is full, by the publisher. */
  lemma NeverStuck(f: Fleet) returns (s: Step)
    requires Inv(f) && !f.phase.Returned?
    ensures s != Step.Tick && !s.Offer? && After(f, s).To?
  {
    match f.phase {
      case Spawning(left, at) =>
        s := if left == 0 && at.Between? then SpawnsDone
             else if at.Between? then Join else if at.Joined? then CountUp else Go;
      case Waiting => s := WaitingMoves(f);
      case Waited => s := Close;
      case Closed =>
        s := if f.publisherDone then Return else if f.held.Some? then Stamp
             else if f.channel == [] then SeeClosed else Take;
    }
  }

  lemma WaitingMoves(f: Fleet) returns (s: Step)
    requires Inv(f) && f.phase.Waiting?
    ensures s != Step.Tick && !s.Offer? && After(f, s).To?
  {
    CountsBound(f.bots);
    if Holding(f.bots) == 0 {
      s := WaitOver;
    } else {
      var i :| 0 <= i < |f.bots| && !f.bots[i].Gone?;
      s := if f.bots[i].Running? then CountDown(i)
           else if f.bots[i].Leaving? then Leave(i)
           else if |f.channel| < CAPACITY then Send(i) else if f.held.Some? then Stamp else Take;
    }
  }

  // ---------------------------------------------------------------- the run can always return

  function PhaseRank(p: Phase): nat {
    match p
    case Spawning(_, _) => 4
    case Waiting => 3
    case Waited => 2
    case Closed => 1
    case Returned => 0
  }

  /** Steps a spawn in progress and those still to come have ahead of them, bots included. */
  function SpawnsAhead(p: Phase): int {
    if !p.Spawning? then 0
    else 5 * p.left - (if p.at.Between? then 0 else if p.at.Joined? then 1 else 2)
  }

  /** How much there is to do before the run returns, if no bot comes to another send. A metric
      in a send has its send, its take and its stamp ahead of it. */
  function Ahead(f: Fleet): int {
    PhaseRank(f.phase) + SpawnsAhead(f.phase) + Holding(f.bots) + Active(f.bots) + 3 * InSend(f.bots)
    + 2 * |f.channel| + |Held(f)| + (if f.publisherDone then 0 else 1)
  }

  lemma SpawnLeads(f: Fleet, bots: seq<Bot>, f': Fleet)
    requires f.phase.Spawning? && f.phase.left > 0 && f.phase.at.Counted?
    requires Holding(bots) == Holding(f.bots) + 1 && Active(bots) == Active(f.bots) + 1
    requires InSend(bots) == InSend(f.bots)
    requires f' == f.(phase := Spawning(f.phase.left - 1, Between), bots := bots)
    ensures Ahead(f') < Ahead(f)
  {
  }

  lemma GoLeads(f: Fleet, s: Step)
    requires s.Go? && After(f, s).To?
    ensures Ahead(After(f, s).next) < Ahead(f)
  {
    CountsAppend(f.bots, Running);
    SpawnLeads(f, f.bots + [Running], After(f, s).next);
  }

  /** The steps of the run and of the publisher that leave the bots alone. */
  lemma OtherLeads(f: Fleet, s: Step)
    requires !s.Go? && !IsBotStep(s) && s != Step.Tick && After(f, s).To?
    ensures Ahead(After(f, s).next) < Ahead(f)
  {
  }

  lemma ExitLeads(f: Fleet, s: Step)
    requires (s.CountDown? || s.Leave?) && After(f, s).To?
    ensures Ahead(After(f, s).next) < Ahead(f)
  {
    CountsAfter(f.bots, s.bot, NewState(s));
  }

  lemma SendLeads(f: Fleet, i: nat)
    requires After(f, Send(i)).To? && !IsClosed(f)
    ensures Ahead(After(f, Send(i)).next) < Ahead(f)
  {
    CountsAfter(f.bots, i, Running);
  }

  /** Every step but an offer and a tick brings the return closer. */
  lemma StepsLead(f: Fleet, s: Step)
    requires Inv(f) && After(f, s).To? && s != Step.Tick && !s.Offer?
    ensures Ahead(After(f, s).next) < Ahead(f)
  {
    match s {
      case Go => GoLeads(f, s);
      case Send(i) =>
        SenderKeepsOpen(f, i);
        SendLeads(f, i);
      case CountDown(_) => ExitLeads(f, s);
      case Leave(_) => ExitLeads(f, s);
      case _ => OtherLeads(f, s);
    }
  }

  lemma AheadIsNatural(f: Fleet)
    requires Inv(f)
    ensures Ahead(f) >= 0
  {
  }

  /** These steps lead from one state to the other. */
  ghost predicate Leads(f: Fleet, steps: seq<Step>, g: Fleet)
    decreases |steps|
  {
    if steps == [] then f == g
    else After(f, steps[0]).To? && Leads(After(f, steps[0]).next, steps[1..], g)
  }

  lemma AllSent(f: Fleet)
    requires Inv(f) && f.phase.Returned?
    ensures forall m :: Times(f.sent, m) == Times(f.offered, m)
  {
    forall m ensures Times(f.sent, m) == Times(f.offered, m) { NoneStanding(f.bots, m); }
  }

  /** From every state that satisfies the invariant the run can return without any further
      offer, within as many steps as there is to do. */
  lemma {:induction false} ReturnPath(f: Fleet) returns (steps: seq<Step>, g: Fleet)
    requires Inv(f)
    ensures Leads(f, steps, g) && |steps| <= Ahead(f)
    ensures Inv(g) && g.phase.Returned? && g.offered == f.offered && f.sent <= g.sent
    decreases Ahead(f)
  {
    AheadIsNatural(f);
    if f.phase.Returned? {
      steps, g := [], f;
    } else {
      var s := NeverStuck(f);
      var f' := After(f, s).next;
      StepsLead(f, s);
      StepKeepsInv(f, s);
      AheadIsNatural(f');
      OneStepSends(f, s);
      var more;
      more, g := ReturnPath(f');
      steps := [s] + more;
      assert steps[1..] == more;
    }
  }

  lemma OneStepSends(f: Fleet, s: Step)
    requires After(f, s).To? && !s.Offer?
    ensures After(f, s).next.offered == f.offered && f.sent <= After(f, s).next.sent
  {
  }

  /** So from every reachable state the run can return; what is sent by then is what was sent
      before and what bots stood in a send with. */
  lemma CanReturn(states: seq<Fleet>, steps: seq<Step>, bots: nat, n: nat)
    returns (path: seq<Step>, g: Fleet)
    requires Run(states, steps, bots) && n <= |steps|
    ensures Leads(states[n], path, g) && |path| <= Ahead(states[n])
    ensures g.phase.Returned? && g.offered == states[n].offered && states[n].sent <= g.sent
    ensures forall m :: Times(g.sent, m) == Times(states[n].sent, m) + Standing(states[n].bots, m)
  {
    RunKeepsInv(states, steps, bots, n);
    path, g := ReturnPath(states[n]);
    AllSent(g);
    assert forall m :: Times(g.offered, m) == Times(states[n].offered, m);
  }
}
