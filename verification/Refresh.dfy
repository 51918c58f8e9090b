/** The window's job queue: refreshes are coalesced by a flag, every other job is queued or refused. */
module Refresh {
  import opened Prelude

  const JOB_CHANNEL_CAP: nat := 16

  datatype Job = Refresh | Other(id: nat)

  datatype SendError = Full | Disconnected

  type SendResult = Result<(), SendError>

  // -- The sender's code, run without interruption -------------------------------------------------

  class JobChannel {
    var queue: seq<Job>
    var pendingRefresh: bool
    var alive: bool

    constructor ()
      ensures queue == [] && !pendingRefresh && alive
    {
      queue, pendingRefresh, alive := [], false, true;
    }

    method Swap(value: bool) returns (previous: bool)
      modifies `pendingRefresh
      ensures previous == old(pendingRefresh) && pendingRefresh == value
    {
      previous := pendingRefresh;
      pendingRefresh := value;
    }

    method TrySend(job: Job) returns (r: SendResult)
      modifies `queue
      ensures r == (if !alive then Err(Disconnected) else if |old(queue)| >= JOB_CHANNEL_CAP then Err(Full) else Ok(()))
      ensures queue == if r.Ok? then old(queue) + [job] else old(queue)
    {
      if !alive { return Err(Disconnected); }
      if |queue| >= JOB_CHANNEL_CAP { return Err(Full); }
      queue := queue + [job];
      return Ok(());
    }

    /** Never blocks. A refresh is swallowed when one is pending already; one that cannot be queued leaves the flag clear. */
    method Send(job: Job) returns (r: SendResult)
      modifies this
      ensures alive == old(alive)
      ensures job.Refresh? && old(pendingRefresh) ==> r.Ok? && queue == old(queue) && pendingRefresh
      ensures !(job.Refresh? && old(pendingRefresh)) ==>
                && (r.Ok? <==> alive && |old(queue)| < JOB_CHANNEL_CAP)
                && queue == (if r.Ok? then old(queue) + [job] else old(queue))
                && pendingRefresh == if job.Refresh? then r.Ok? else old(pendingRefresh)
    {
      if job.Refresh? {
        var previous := Swap(true);
        if previous { return Ok(()); }
      }
      r := TrySend(job);
      if r.Err? && job.Refresh? {
        pendingRefresh := false;
      }
    }
  }

  // -- The same, one atomic access at a time ----------------------------------------------------------

  /** Where a sender stands inside a refresh it has begun: the flag is set and the job not yet offered (`Offering`),
      or it was refused and the flag not yet cleared (`Clearing`). */
  datatype Sender = Idle | Offering | Clearing

  /** `Taken` is a refresh received whose flag has not been cleared yet. */
  datatype Worker = Waiting | Taken | Busy(job: Job)

  /** `unserved`: some refresh has been answered `Ok` and none has begun to execute since. */
  datatype Sys = Sys(flag: bool, queue: seq<Job>, alive: bool, senders: seq<Sender>, worker: Worker, unserved: bool)

  datatype Event =
    | Ask(sender: nat)
    | Offer(sender: nat)
    | Clear(sender: nat)
    | Submit(sender: nat, id: nat)
    | Take
    | Begin
    | Done
    | Die

  predicate Enabled(s: Sys, e: Event) {
    match e
    case Ask(i) => i < |s.senders| && s.senders[i].Idle?
    case Offer(i) => i < |s.senders| && s.senders[i].Offering?
    case Clear(i) => i < |s.senders| && s.senders[i].Clearing?
    case Submit(i, _) => i < |s.senders| && s.senders[i].Idle?
    case Take => s.alive && s.worker.Waiting? && s.queue != []
    case Begin => s.alive && s.worker.Taken?
    case Done => s.alive && s.worker.Busy?
    case Die => s.alive
  }

  function Step(s: Sys, e: Event): Sys
    requires Enabled(s, e)
  {
    match e
    case Ask(i) => if s.flag then s.(unserved := true) else s.(flag := true, senders := s.senders[i := Offering])
    case Offer(i) =>
      if s.alive && |s.queue| < JOB_CHANNEL_CAP then
        s.(queue := s.queue + [Job.Refresh], senders := s.senders[i := Idle], unserved := true)
      else s.(senders := s.senders[i := Clearing])
    case Clear(i) => s.(flag := false, senders := s.senders[i := Idle])
    case Submit(_, id) => if s.alive && |s.queue| < JOB_CHANNEL_CAP then s.(queue := s.queue + [Other(id)]) else s
    case Take => s.(queue := s.queue[1..], worker := if s.queue[0].Refresh? then Taken else Busy(s.queue[0]))
    case Begin => s.(flag := false, worker := Busy(Job.Refresh), unserved := false)
    case Done => s.(worker := Waiting)
    case Die => s.(alive := false)
  }

  /** The job a step puts into the queue, and the one the worker takes out of it. */
  function Entering(s: Sys, e: Event): seq<Job> {
    if !s.alive || |s.queue| >= 16 then []
    else if e.Offer? then [Job.Refresh]
    else if e.Submit? then [Other(e.id)]
    else []
  }

  function Leaving(s: Sys, e: Event): seq<Job> { if e.Take? && s.queue != [] then [s.queue[0]] else [] }

  predicate IsRefresh(j: Job) { j.Refresh? }

  predicate InRefresh(c: Sender) { !c.Idle? }

  /** How many refreshes are under way between a sender's swap and the worker's clearing of the flag. */
  function Tokens(s: Sys): nat {
    |Filter(IsRefresh, s.queue)| + |Filter(InRefresh, s.senders)| + if s.worker.Taken? then 1 else 0
  }

  /** The flag is set exactly while one refresh is under way, and there is never a second one. */
  predicate FlagRight(s: Sys) { Tokens(s) == (if s.flag then 1 else 0) && |s.queue| <= JOB_CHANNEL_CAP }

  /** Whoever was told `Ok` is going to be served: a refresh is queued or just received, or a sender is about to queue one. */
  predicate Covered(s: Sys) { s.alive && s.unserved ==> Tokens(s) == 1 }

  function Initial(senders: nat): Sys { Sys(false, [], true, seq(senders, i => Idle), Waiting, false) }

  lemma SenderMoves(senders: seq<Sender>, i: nat, c: Sender)
    requires i < |senders|
    ensures |Filter(InRefresh, senders[i := c])| + (if InRefresh(senders[i]) then 1 else 0)
         == |Filter(InRefresh, senders)| + (if InRefresh(c) then 1 else 0)
  {
    var before, after := senders[..i], senders[i + 1..];
    assert senders == before + [senders[i]] + after && senders[i := c] == before + [c] + after;
    FilterMiddle(before, senders[i], after);
    FilterMiddle(before, c, after);
  }

  lemma FilterMiddle(before: seq<Sender>, c: Sender, after: seq<Sender>)
    ensures |Filter(InRefresh, before + [c] + after)|
         == |Filter(InRefresh, before)| + |Filter(InRefresh, after)| + if InRefresh(c) then 1 else 0
  {
    FilterAppend(InRefresh, before + [c], after);
    FilterAppend(InRefresh, before, [c]);
    assert [c][..0] == [];
  }

  lemma QueueAppends(queue: seq<Job>, j: Job)
    ensures |Filter(IsRefresh, queue + [j])| == |Filter(IsRefresh, queue)| + if j.Refresh? then 1 else 0
  {
    FilterAppend(IsRefresh, queue, [j]);
    assert [j][..0] == [];
  }

  lemma QueueTakes(queue: seq<Job>)
    requires queue != []
    ensures |Filter(IsRefresh, queue)| == |Filter(IsRefresh, queue[1..])| + if queue[0].Refresh? then 1 else 0
  {
    assert queue == [queue[0]] + queue[1..];
    FilterAppend(IsRefresh, [queue[0]], queue[1..]);
    assert [queue[0]][..0] == [];
  }

  /** With any number of senders the flag and the refresh under way stay in step. A step can lose a promise only
      by clearing the flag after a refused offer, and does so exactly if someone has been promised that refresh. */
  lemma StepRight(s: Sys, e: Event)
    requires FlagRight(s) && Covered(s) && Enabled(s, e)
    ensures FlagRight(Step(s, e))
    ensures Covered(Step(s, e)) <==> !(e.Clear? && s.alive && s.unserved)
  {
    hide Filter;
    match e {
      case Ask(i) => SenderMoves(s.senders, i, Offering);
      case Offer(i) =>
        SenderMoves(s.senders, i, Idle);
        SenderMoves(s.senders, i, Clearing);
        QueueAppends(s.queue, Job.Refresh);
      case Clear(i) => SenderMoves(s.senders, i, Idle);
      case Submit(_, id) => QueueAppends(s.queue, Other(id));
      case Take => QueueTakes(s.queue);
      case Begin =>
      case Done =>
      case Die =>
    }
  }

  ghost predicate Run(senders: nat, events: seq<Event>, states: seq<Sys>) {
    && |states| == |events| + 1 && states[0] == Initial(senders)
    && forall k :: 0 <= k < |events| ==> Enabled(states[k], events[k]) && states[k + 1] == Step(states[k], events[k])
  }

  function AllEntered(events: seq<Event>, states: seq<Sys>, k: nat): seq<Job>
    requires k <= |events| && k <= |states|
  {
    if k == 0 then [] else AllEntered(events, states, k - 1) + Entering(states[k - 1], events[k - 1])
  }

  function AllTaken(events: seq<Event>, states: seq<Sys>, k: nat): seq<Job>
    requires k <= |events| && k <= |states|
  {
    if k == 0 then [] else AllTaken(events, states, k - 1) + Leaving(states[k - 1], events[k - 1])
  }

  /** Over all runs, with any number of senders: the worker gets the jobs in the order in which they were accepted, each
      once, and those it has not taken yet are the queue. It works on what it has taken. */
  lemma {:induction false} QueueIsFifo(senders: nat, events: seq<Event>, states: seq<Sys>, k: nat)
    requires Run(senders, events, states) && k < |states|
    ensures AllEntered(events, states, k) == AllTaken(events, states, k) + states[k].queue
    ensures k < |events| && events[k].Take? ==>
              states[k + 1].worker == if states[k].queue[0].Refresh? then Taken else Busy(states[k].queue[0])
  {
    if k > 0 {
      QueueIsFifo(senders, events, states, k - 1);
      FifoStep(AllTaken(events, states, k - 1), states[k - 1], events[k - 1]);
    }
  }

  lemma FifoStep(taken: seq<Job>, s: Sys, e: Event)
    requires Enabled(s, e)
    ensures taken + s.queue + Entering(s, e) == taken + Leaving(s, e) + Step(s, e).queue
  {
    if e.Take? { assert s.queue == [s.queue[0]] + s.queue[1..]; }
  }

  lemma {:induction false} NobodyBusy(n: nat)
    ensures Filter(InRefresh, seq(n, i => Idle)) == []
  {
    FilterNone(InRefresh, seq(n, i => Idle));
  }

  lemma StartRight(senders: nat)
    ensures FlagRight(Initial(senders)) && Covered(Initial(senders))
  {
    NobodyBusy(senders);
  }

  // -- One window -----------------------------------------------------------------------------------------

  /** What holds with at most one sender: while it is inside a refresh nobody has been promised one. */
  predicate OneSender(s: Sys) {
    FlagRight(s) && Covered(s) && |s.senders| <= 1 && (|s.senders| == 1 && !s.senders[0].Idle? ==> !s.unserved || !s.alive)
  }

  lemma OneSenderStep(s: Sys, e: Event)
    requires OneSender(s) && Enabled(s, e)
    ensures OneSender(Step(s, e))
  {
    StepRight(s, e);
    if |s.senders| == 1 { assert s.senders[..0] == []; }
  }

  lemma {:induction false} OneSenderRun(senders: nat, events: seq<Event>, states: seq<Sys>, k: nat)
    requires senders <= 1 && Run(senders, events, states) && k < |states|
    ensures OneSender(states[k])
  {
    hide OneSender, Step;
    if k == 0 {
      OneStart(senders);
    } else {
      OneSenderRun(senders, events, states, k - 1);
      OneSenderStep(states[k - 1], events[k - 1]);
    }
  }

  lemma OneStart(senders: nat)
    requires senders <= 1
    ensures OneSender(Initial(senders))
  {
    StartRight(senders);
  }

  /** For one window and its worker, in every interleaving: at most one refresh is queued, a queued one means the
      flag is set, a refused one leaves it clear, and while the worker lives whoever was told `Ok` and not served
      yet has a refresh in the queue or in the worker's hands. */
  lemma RefreshIsNotLost(events: seq<Event>, states: seq<Sys>, k: nat)
    requires Run(1, events, states) && k < |states|
    ensures var s := states[k];
            && |Filter(IsRefresh, s.queue)| <= 1
            && (Job.Refresh in s.queue ==> s.flag)
            && (s.alive && s.unserved ==> Job.Refresh in s.queue || s.worker.Taken?)
    ensures k < |events| && events[k].Clear? ==> !states[k + 1].flag
  {
    OneSenderRun(1, events, states, k);
    var s := states[k];
    if Job.Refresh in s.queue { FilterMember(IsRefresh, s.queue, Job.Refresh); }
    if s.alive && s.unserved {
      assert Filter(InRefresh, s.senders) == [] by { OnlyIdle(s.senders); }
      if !s.worker.Taken? { SomeRefresh(s.queue); }
    }
  }

  lemma OnlyIdle(senders: seq<Sender>)
    requires forall i :: 0 <= i < |senders| ==> senders[i].Idle?
    ensures Filter(InRefresh, senders) == []
  {
    FilterNone(InRefresh, senders);
  }

  lemma SomeRefresh(queue: seq<Job>)
    requires |Filter(IsRefresh, queue)| > 0
    ensures Job.Refresh in queue
  {
    FilterMember(IsRefresh, queue, Filter(IsRefresh, queue)[0]);
    assert Filter(IsRefresh, queue)[0] in Filter(IsRefresh, queue);
  }

  /** How many jobs the worker has begun from `k` to `l`, and whether a refresh was among them. */
  function Begun(events: seq<Event>, k: nat, l: nat): nat
    requires k <= l <= |events|
    decreases l
  {
    if k == l then 0 else Begun(events, k, l - 1) + if events[l - 1].Take? then 1 else 0
  }

  predicate Served(events: seq<Event>, k: nat, l: nat)
    requires k <= l <= |events|
  {
    exists i :: k <= i < l && events[i].Begin?
  }

  /** The first refresh in the queue. */
  function Position(queue: seq<Job>): (i: nat)
    ensures i <= |queue|
    ensures i < |queue| ==> queue[i].Refresh?
    ensures forall k :: 0 <= k < i ==> !queue[k].Refresh?
  {
    if queue == [] || queue[0].Refresh? then 0 else 1 + Position(queue[1..])
  }

  /** Until a refresh begins, the queued one only moves forward. */
  lemma {:induction false} MovesForward(events: seq<Event>, states: seq<Sys>, k: nat, l: nat)
    requires Run(1, events, states) && k <= l < |states| && Job.Refresh in states[k].queue && !Served(events, k, l)
    ensures var from, to := Position(states[k].queue), Position(states[l].queue);
            if Begun(events, k, l) <= from then Job.Refresh in states[l].queue && to + Begun(events, k, l) == from
            else states[l].worker.Taken? && Begun(events, k, l) == from + 1
    decreases l - k
  {
    hide Step, Position, Enabled;
    if k < l {
      assert !Served(events, k, l - 1) && !events[l - 1].Begin?;
      MovesForward(events, states, k, l - 1);
      PositionMoves(states[l - 1], events[l - 1]);
    } else {
      InQueue(states[k].queue);
    }
  }

  lemma InQueue(queue: seq<Job>)
    requires Job.Refresh in queue
    ensures Position(queue) < |queue|
  {
    var i :| 0 <= i < |queue| && queue[i] == Job.Refresh;
  }

  lemma PositionUnique(queue: seq<Job>, i: nat)
    requires i < |queue| && queue[i].Refresh? && forall k :: 0 <= k < i ==> !queue[k].Refresh?
    ensures Position(queue) == i
  {
  }

  lemma PositionMoves(s: Sys, e: Event)
    requires Enabled(s, e)
    ensures Job.Refresh in s.queue && !e.Take? ==>
              Job.Refresh in Step(s, e).queue && Position(Step(s, e).queue) == Position(s.queue)
    ensures Job.Refresh in s.queue && e.Take? ==>
              if Position(s.queue) == 0 then Step(s, e).worker.Taken?
              else Job.Refresh in Step(s, e).queue && Position(Step(s, e).queue) + 1 == Position(s.queue)
    ensures s.worker.Taken? && !e.Begin? ==> Step(s, e).worker.Taken? && !e.Take?
  {
    if Job.Refresh in s.queue {
      InQueue(s.queue);
      var p := Position(s.queue);
      var after := Step(s, e).queue;
      if e.Take? {
        if p > 0 {
          assert after[p - 1] == s.queue[p];
          PositionUnique(after, p - 1);
        }
      } else {
        assert forall k :: 0 <= k <= p ==> after[k] == s.queue[k];
        PositionUnique(after, p);
      }
    }
  }

  /** A refresh answered `Ok` begins before the worker has gone through as many further jobs as the queue can hold. */
  lemma ServedInTime(events: seq<Event>, states: seq<Sys>, k: nat, l: nat)
    requires Run(1, events, states) && k <= l < |states|
    requires states[k].alive && states[k].unserved && Begun(events, k, l) > JOB_CHANNEL_CAP
    ensures Served(events, k, l)
  {
    RefreshIsNotLost(events, states, k);
    OneSenderRun(1, events, states, k);
    if !Served(events, k, l) {
      if Job.Refresh in states[k].queue {
        MovesForward(events, states, k, l);
      } else {
        NothingTaken(events, states, k, l);
      }
    }
  }

  lemma {:induction false} NothingTaken(events: seq<Event>, states: seq<Sys>, k: nat, l: nat)
    requires Run(1, events, states) && k <= l < |states| && states[k].worker.Taken? && !Served(events, k, l)
    ensures states[l].worker.Taken? && Begun(events, k, l) == 0
    decreases l - k
  {
    if k < l {
      assert !Served(events, k, l - 1) && !events[l - 1].Begin?;
      NothingTaken(events, states, k, l - 1);
      PositionMoves(states[l - 1], events[l - 1]);
    }
  }

  // -- Several senders ----------------------------------------------------------------------------------------

  /** Somebody has been told `Ok`, the worker lives, and no refresh is under way anywhere. */
  predicate Lost(s: Sys) {
    s.alive && s.unserved && Job.Refresh !in s.queue && !s.worker.Taken? && forall i :: 0 <= i < |s.senders| ==> s.senders[i].Idle?
  }

  function Others(n: nat): seq<Job> { seq(n, i => Other(0)) }

  function Idlers(n: nat): seq<Sender> { seq(n, i => Idle) }

  function Filled(senders: nat, n: nat): Sys { Sys(false, Others(n), true, Idlers(senders), Waiting, false) }

  /** The sender can be cloned. With two of them the second may be told `Ok` because the first has set the flag,
      and then the first finds the queue full: the second one's refresh is lost. */
  lemma SendersLose(senders: nat) returns (events: seq<Event>, states: seq<Sys>)
    requires senders >= 2
    ensures Run(senders, events, states) && Lost(Last(states))
  {
    var full := Filled(senders, JOB_CHANNEL_CAP);
    var a := full.(flag := true, senders := full.senders[0 := Offering]);
    var b := a.(unserved := true);
    var c := b.(senders := a.senders[0 := Clearing]);
    var d := full.(unserved := true);
    events := seq(JOB_CHANNEL_CAP, i => Submit(0, 0)) + [Ask(0), Ask(1), Offer(0), Clear(0)];
    states := seq(JOB_CHANNEL_CAP + 1, i requires 0 <= i => Filled(senders, i)) + [a, b, c, d];
    forall k | 0 <= k < |events|
      ensures Enabled(states[k], events[k]) && states[k + 1] == Step(states[k], events[k])
    {
      if k < JOB_CHANNEL_CAP { assert Others(k + 1) == Others(k) + [Other(0)]; }
      assert c.senders[0 := Idle] == full.senders;
    }
  }

  lemma NothingLost(s: Sys)
    requires OneSender(s)
    ensures !Lost(s)
  {
    if s.alive && s.unserved && Job.Refresh !in s.queue && !s.worker.Taken? {
      FilterNone(IsRefresh, s.queue);
    }
    if forall i :: 0 <= i < |s.senders| ==> s.senders[i].Idle? { OnlyIdle(s.senders); }
  }

  /** No run loses a promised refresh exactly if there is at most one sender. */
  lemma LosesExactlyWithClones(senders: nat)
    ensures (forall events, states, k: nat :: Run(senders, events, states) && k < |states| ==> !Lost(states[k])) <==> senders <= 1
  {
    hide Run, Lost;
    if senders <= 1 {
      forall events, states, k: nat | Run(senders, events, states) && k < |states|
        ensures !Lost(states[k])
      {
        OneSenderRun(senders, events, states, k);
        NothingLost(states[k]);
      }
    } else {
      var events, states := SendersLose(senders);
      assert states != [] by { RunHasStates(senders, events, states); }
      assert Lost(states[|states| - 1]);
    }
  }

  lemma RunHasStates(senders: nat, events: seq<Event>, states: seq<Sys>)
    requires Run(senders, events, states)
    ensures |states| == |events| + 1
  {
  }
}
