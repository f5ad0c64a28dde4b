/** The admission and shutdown protocol of one VMM: any number of instances, each
    a bounded task channel drained by one loop, with submitters, stoppers, a closer
    goroutine per stopped instance, and the closing gate of the whole manager.

    Every atomic section of the program (a critical section, one channel operation,
    one close) is one action; goroutines interleave at action boundaries. */
module InstanceProtocol {

  const QUEUE_CAPACITY: nat := 64

  // A submitted task is named by the goroutine that carries it.
  datatype Task = InitTask | CallTask(sender: nat)

  // What the loop answers when it finishes a task: whether it called Run, and whether Err is set.
  datatype Reply = Reply(task: Task, ran: bool, failed: bool)

  // A submitter that has been counted in the wait group and has not yet left it.
  datatype SenderPhase = Admitted | Sent

  datatype Closer = NotStarted | AwaitingSenders | ChannelClosed

  datatype InitStatus = InitPending | InitOk | InitFailed

  datatype Loop =
    | Idle                // about to receive from Tasks
    | Busy(task: Task)    // received, Run not finished
    | RemovingFailed      // InitErr is set, about to remove itself from the map
    | StoppingFailed      // removed, about to stop itself
    | ClosingVm           // the range over Tasks has ended
    | Unpublishing        // VM closed, about to remove itself from the map
    | ClosingDone         // about to close Done
    | Finished            // Done is closed, about to leave the manager's wait group
    | Exited

  datatype Instance = Instance(
    pid: string,
    queue: seq<Task>,
    stopping: bool,
    closer: Closer,
    senders: map<nat, SenderPhase>,
    init: InitStatus,
    loop: Loop,
    admitted: set<nat>,      // history: every sender ever admitted
    sent: seq<Task>,         // history: every task ever sent, in send order
    replies: seq<Reply>)     // history: every task answered, in answer order

  // Vmm.Close: which stops it still owes, then the wait for all loops.
  datatype CloseCall = NotCalled | StoppingAll(owed: set<nat>) | Waiting | Returned

  datatype State = State(
    closed: bool,
    closeCall: CloseCall,
    vms: map<string, nat>,   // published instances
    instances: seq<Instance>,
    panicked: bool)          // a send on, or a second close of, a closed channel

  datatype Action =
    | Create(pid: string)
    | Admit(id: nat, sender: nat)
    | Send(id: nat, sender: nat)
    | Leave(id: nat, sender: nat)
    | Stop(id: nat)
    | CloseTasks(id: nat)
    | Receive(id: nat)
    | Answer(id: nat, failed: bool)
    | InitSucceeds(id: nat)
    | InitFails(id: nat)
    | RemoveFailed(id: nat)
    | StopFailed(id: nat)
    | RangeEnds(id: nat)
    | CloseVm(id: nat)
    | Unpublish(id: nat)
    | CloseDone(id: nat)
    | Exit(id: nat)
    | CloseBegins
    | CloseStops(id: nat)
    | CloseWaits
    | CloseReturns

  // ---------------------------------------------------------------- transitions

  const START := State(false, NotCalled, map[], [], false)

  function NewInstance(pid: string): Instance {
    Instance(pid, [InitTask], false, NotStarted, map[], InitPending, Idle, {}, [InitTask], [])
  }

  // A sender blocked on a full channel is not enabled, but a send on a closed channel is: it panics.
  predicate InstanceEnabled(i: Instance, a: Action) {
    match a
    case Send(_, n) =>
      n in i.senders && i.senders[n].Admitted? && (i.closer.ChannelClosed? || |i.queue| < QUEUE_CAPACITY)
    case Leave(_, n) => n in i.senders && i.senders[n].Sent?
    case Stop(_) => true
    case CloseTasks(_) => i.closer.AwaitingSenders? && i.senders == map[]
    case Receive(_) => i.loop.Idle? && i.queue != []
    case Answer(_, failed) => i.loop.Busy? && !(i.loop.task.InitTask? && !i.init.InitFailed?)
                              && (i.init.InitFailed? ==> failed)
    case InitSucceeds(_) => i.loop == Busy(InitTask) && !i.init.InitFailed?
    case InitFails(_) => i.loop == Busy(InitTask) && !i.init.InitFailed?
    case RemoveFailed(_) => i.loop.RemovingFailed?
    case StopFailed(_) => i.loop.StoppingFailed?
    case RangeEnds(_) => i.loop.Idle? && i.queue == [] && i.closer.ChannelClosed?
    case CloseVm(_) => i.loop.ClosingVm?
    case Unpublish(_) => i.loop.Unpublishing?
    case CloseDone(_) => i.loop.ClosingDone?
    case Exit(_) => i.loop.Finished?
    case _ => false
  }

  function Stopped(i: Instance): Instance {
    i.(stopping := true, closer := if i.closer.NotStarted? then AwaitingSenders else i.closer)
  }

  function InstanceNext(i: Instance, a: Action): Instance
    requires InstanceEnabled(i, a)
  {
    match a
    case Send(_, n) =>
      i.(queue := i.queue + [CallTask(n)], sent := i.sent + [CallTask(n)], senders := i.senders[n := Sent])
    case Leave(_, n) => i.(senders := i.senders - {n})
    case Stop(_) => Stopped(i)
    case CloseTasks(_) => i.(closer := ChannelClosed)
    case Receive(_) => i.(queue := i.queue[1..], loop := Busy(i.queue[0]))
    case Answer(_, failed) =>
      i.(loop := Idle, replies := i.replies + [Reply(i.loop.task, !i.init.InitFailed?, failed)])
    case InitSucceeds(_) =>
      i.(loop := Idle, init := InitOk, replies := i.replies + [Reply(InitTask, true, false)])
    case InitFails(_) => i.(loop := RemovingFailed, init := InitFailed)
    case RemoveFailed(_) => i.(loop := StoppingFailed)
    case StopFailed(_) =>
      Stopped(i).(loop := Idle, replies := i.replies + [Reply(InitTask, true, true)])
    case RangeEnds(_) => i.(loop := ClosingVm)
    case CloseVm(_) => i.(loop := Unpublishing)
    case Unpublish(_) => i.(loop := ClosingDone)
    case CloseDone(_) => i.(loop := Finished)
    case Exit(_) => i.(loop := Exited)
  }

  // Actions taken by or on behalf of one existing instance, apart from admission.
  predicate Internal(a: Action) {
    !(a.Create? || a.Admit? || a.CloseBegins? || a.CloseStops? || a.CloseWaits? || a.CloseReturns?)
  }

  function Panics(i: Instance, a: Action): bool {
    i.closer.ChannelClosed? && (a.Send? || a.CloseTasks?)
  }

  predicate Enabled(s: State, a: Action) {
    match a
    case Create(pid) => !s.closed && pid !in s.vms
    case Admit(id, n) =>
      !s.closed && id < |s.instances| && !s.instances[id].stopping && n !in s.instances[id].admitted
    case CloseBegins => s.closeCall.NotCalled?
    case CloseStops(id) => s.closeCall.StoppingAll? && id in s.closeCall.owed && id < |s.instances|
    case CloseWaits => s.closeCall == StoppingAll({})
    case CloseReturns => s.closeCall.Waiting? && forall i <- s.instances :: i.loop.Exited?
    case _ => a.id < |s.instances| && InstanceEnabled(s.instances[a.id], a)
  }

  // removeInstance: only the instance that is published under the pid is taken out.
  function Removed(vms: map<string, nat>, pid: string, id: nat): map<string, nat> {
    if pid in vms && vms[pid] == id then vms - {pid} else vms
  }

  function Next(s: State, a: Action): State
    requires Enabled(s, a)
  {
    match a
    case Create(pid) =>
      s.(vms := s.vms[pid := |s.instances|], instances := s.instances + [NewInstance(pid)])
    case Admit(id, n) =>
      var i := s.instances[id];
      s.(instances := s.instances[id := i.(senders := i.senders[n := Admitted], admitted := i.admitted + {n})])
    case CloseBegins => s.(closed := true, closeCall := StoppingAll(s.vms.Values))
    case CloseStops(id) =>
      s.(instances := s.instances[id := Stopped(s.instances[id])],
         closeCall := StoppingAll(s.closeCall.owed - {id}))
    case CloseWaits => s.(closeCall := Waiting)
    case CloseReturns => s.(closeCall := Returned)
    case _ => InternalNext(s, a)
  }

  function InternalNext(s: State, a: Action): State
    requires Internal(a) && Enabled(s, a)
  {
    var i := s.instances[a.id];
    s.(instances := s.instances[a.id := InstanceNext(i, a)],
       vms := if a.RemoveFailed? || a.Unpublish? then Removed(s.vms, i.pid, a.id) else s.vms,
       panicked := s.panicked || Panics(i, a))
  }

  ghost predicate Run(s: State, actions: seq<Action>, t: State)
    decreases |actions|
  {
    if actions == [] then s == t
    else Enabled(s, actions[0]) && Run(Next(s, actions[0]), actions[1..], t)
  }

  ghost predicate Reachable(s: State) {
    exists actions :: Run(START, actions, s)
  }

  // ------------------------------------------------------------------ invariant

  function Tasks(replies: seq<Reply>): seq<Task> {
    seq(|replies|, k requires 0 <= k < |replies| => replies[k].task)
  }

  // The task the loop has received and not answered.
  function InHand(i: Instance): seq<Task> {
    match i.loop
    case Busy(t) => [t]
    case RemovingFailed => [InitTask]
    case StoppingFailed => [InitTask]
    case _ => []
  }

  predicate RangeOver(l: Loop) {
    l.ClosingVm? || l.Unpublishing? || l.ClosingDone? || l.Finished? || l.Exited?
  }

  predicate DoneClosed(l: Loop) { l.Finished? || l.Exited? }

  // removeInstance has not yet run for this instance.
  predicate MayBePublished(i: Instance) {
    if i.init.InitFailed? then i.loop.RemovingFailed?
    else !(i.loop.ClosingDone? || DoneClosed(i.loop))
  }

  // FIFO: what was sent is what was answered, then the task in hand, then the queue.
  predicate FifoInv(i: Instance) {
    i.sent == Tasks(i.replies) + InHand(i) + i.queue
  }

  ghost predicate SenderInv(i: Instance) {
    && i.sent != [] && i.sent[0].InitTask?
    && (forall k :: 0 < k < |i.sent| ==> i.sent[k].CallTask?)
    && (forall j, k :: 0 <= j < k < |i.sent| ==> i.sent[j] != i.sent[k])
    && (forall n :: CallTask(n) in i.sent ==> n in i.admitted && (n in i.senders ==> i.senders[n].Sent?))
    && (forall n <- i.admitted :: CallTask(n) in i.sent || (n in i.senders && i.senders[n].Admitted?))
    && i.senders.Keys <= i.admitted
    && (forall n <- i.senders :: i.senders[n].Sent? ==> CallTask(n) in i.sent)
  }

  predicate ChannelInv(i: Instance) {
    && |i.queue| <= QUEUE_CAPACITY
    && (i.stopping <==> !i.closer.NotStarted?)
    && (i.closer.ChannelClosed? ==> i.senders == map[])
    && (RangeOver(i.loop) ==> i.closer.ChannelClosed? && i.queue == [])
  }

  predicate InitInv(i: Instance) {
    && (i.init.InitPending? <==> i.replies == [] && !i.loop.RemovingFailed? && !i.loop.StoppingFailed?)
    && (i.loop.RemovingFailed? || i.loop.StoppingFailed? ==> i.init.InitFailed? && i.replies == [])
    && (i.init.InitFailed? && i.replies != [] ==> i.stopping)
    && (forall k :: 0 <= k < |i.replies| ==>
          if i.init.InitFailed? then i.replies[k].failed && i.replies[k].ran == (k == 0) else i.replies[k].ran)
    && (i.init.InitOk? ==> i.replies[0] == Reply(InitTask, true, false))
  }

  ghost predicate InstanceInv(i: Instance) {
    FifoInv(i) && SenderInv(i) && ChannelInv(i) && InitInv(i)
  }

  ghost predicate PublishInv(s: State) {
    forall p <- s.vms ::
      s.vms[p] < |s.instances| && s.instances[s.vms[p]].pid == p && MayBePublished(s.instances[s.vms[p]])
  }

  predicate Published(s: State, id: nat)
    requires id < |s.instances|
  {
    s.instances[id].pid in s.vms && s.vms[s.instances[id].pid] == id
  }

  // An instance that has not yet taken itself out of the map is in it.
  predicate StaysPublished(s: State) {
    forall id :: 0 <= id < |s.instances| && MayBePublished(s.instances[id]) ==> Published(s, id)
  }

  // The stop an instance is still sure to get: from Close, or from whoever kills a published one.
  predicate StopOwed(s: State, id: nat)
    requires id < |s.instances|
  {
    match s.closeCall
    case NotCalled => Published(s, id)
    case StoppingAll(owed) => id in owed
    case _ => false
  }

  predicate StopInv(s: State) {
    forall id :: 0 <= id < |s.instances| ==>
      s.instances[id].stopping || s.instances[id].loop.StoppingFailed? || StopOwed(s, id)
  }

  ghost predicate Inv(s: State) {
    && !s.panicked
    && (forall i <- s.instances :: InstanceInv(i))
    && PublishInv(s)
    && StaysPublished(s)
    && StopInv(s)
    && (s.closed <==> !s.closeCall.NotCalled?)
    && (s.closeCall.StoppingAll? ==> forall id <- s.closeCall.owed :: id < |s.instances|)
    && (s.closeCall.Returned? ==> forall i <- s.instances :: i.loop.Exited?)
  }

  // ------------------------------------------------- the invariant is inductive

  lemma TasksAppend(r: seq<Reply>, x: Reply)
    ensures Tasks(r + [x]) == Tasks(r) + [x.task]
  {
  }

  lemma FifoJoin(a: seq<Task>, b: seq<Task>, q: seq<Task>, x: Task)
    ensures (a + b + q) + [x] == a + b + (q + [x])
    ensures a + [] + ([x] + q) == a + [x] + q == (a + [x]) + [] + q
  {
  }

  lemma FifoStep(i: Instance, a: Action)
    requires InstanceInv(i) && InstanceEnabled(i, a)
    ensures FifoInv(InstanceNext(i, a))
  {
    hide SenderInv, ChannelInv, Tasks;
    var j := InstanceNext(i, a);
    if |j.replies| > |i.replies| {
      TasksAppend(i.replies, j.replies[|i.replies|]);
    }
    if a.Send? {
      FifoJoin(Tasks(i.replies), InHand(i), i.queue, CallTask(a.sender));
    } else if a.Receive? {
      assert i.queue == [i.queue[0]] + j.queue;
      FifoJoin(Tasks(i.replies), [], j.queue, i.queue[0]);
    } else if InHand(i) != [] {
      FifoJoin(Tasks(i.replies), [], i.queue, InHand(i)[0]);
    }
  }

  lemma SenderStep(i: Instance, a: Action)
    requires InstanceInv(i) && InstanceEnabled(i, a)
    ensures SenderInv(InstanceNext(i, a))
  {
    var j := InstanceNext(i, a);
    if a.Send? {
      assert CallTask(a.sender) !in i.sent;
    } else {
      assert j.sent == i.sent && j.admitted == i.admitted;
    }
  }

  lemma ChannelStep(i: Instance, a: Action)
    requires InstanceInv(i) && InstanceEnabled(i, a)
    ensures ChannelInv(InstanceNext(i, a)) && !Panics(i, a)
  {
  }

  lemma InitStep(i: Instance, a: Action)
    requires InstanceInv(i) && InstanceEnabled(i, a)
    ensures InitInv(InstanceNext(i, a))
  {
    if i.loop.Busy? {
      assert i.sent[|i.replies|] == i.loop.task;
      if i.replies == [] {
        assert i.loop.task.InitTask?;
      } else {
        assert i.loop.task.CallTask?;
      }
    }
  }

  lemma InstanceStep(i: Instance, a: Action)
    requires InstanceInv(i) && InstanceEnabled(i, a)
    ensures InstanceInv(InstanceNext(i, a)) && !Panics(i, a)
  {
    FifoStep(i, a);
    SenderStep(i, a);
    ChannelStep(i, a);
    InitStep(i, a);
  }

  lemma AdmitStep(i: Instance, n: nat)
    requires InstanceInv(i) && !i.stopping && n !in i.admitted
    ensures InstanceInv(i.(senders := i.senders[n := Admitted], admitted := i.admitted + {n}))
  {
  }

  lemma AllAfterUpdate(instances: seq<Instance>, id: nat, j: Instance)
    requires id < |instances| && (forall i <- instances :: InstanceInv(i)) && InstanceInv(j)
    ensures forall i <- instances[id := j] :: InstanceInv(i)
  {
    hide InstanceInv;
  }

  lemma AllAfterAppend(instances: seq<Instance>, j: Instance)
    requires (forall i <- instances :: InstanceInv(i)) && InstanceInv(j)
    ensures forall i <- instances + [j] :: InstanceInv(i)
  {
    hide InstanceInv;
  }

  lemma NewInstanceInv(pid: string)
    ensures InstanceInv(NewInstance(pid))
  {
  }

  lemma InstancesStep(s: State, a: Action)
    requires Inv(s) && Enabled(s, a)
    ensures !Next(s, a).panicked && forall i <- Next(s, a).instances :: InstanceInv(i)
  {
    hide InstanceInv, InstanceNext, InstanceEnabled, PublishInv, StopInv, Panics, Stopped;
    match a
    case Create(pid) =>
      NewInstanceInv(pid);
      AllAfterAppend(s.instances, NewInstance(pid));
    case Admit(id, n) =>
      AdmitStep(s.instances[id], n);
      var i := s.instances[id];
      AllAfterUpdate(s.instances, id, i.(senders := i.senders[n := Admitted], admitted := i.admitted + {n}));
    case CloseBegins =>
    case CloseStops(id) =>
      StoppedInv(s.instances[id], id);
      AllAfterUpdate(s.instances, id, Stopped(s.instances[id]));
    case CloseWaits =>
    case CloseReturns =>
    case _ =>
      InstanceStep(s.instances[a.id], a);
      AllAfterUpdate(s.instances, a.id, InstanceNext(s.instances[a.id], a));
  }

  lemma StoppedInv(i: Instance, id: nat)
    requires InstanceInv(i)
    ensures InstanceInv(Stopped(i))
  {
    hide InstanceInv;
    InstanceStep(i, Stop(id));
  }

  lemma StaysPublishable(i: Instance, a: Action)
    requires InstanceInv(i) && InstanceEnabled(i, a) && MayBePublished(i)
    ensures InstanceNext(i, a).pid == i.pid
    ensures !a.RemoveFailed? && !a.Unpublish? ==> MayBePublished(InstanceNext(i, a))
  {
  }

  lemma PublishStepInternal(s: State, a: Action)
    requires Inv(s) && Internal(a) && Enabled(s, a)
    ensures PublishInv(InternalNext(s, a))
  {
    hide InstanceInv, StopInv, InstanceNext, MayBePublished, Panics;
    var t := InternalNext(s, a);
    forall p | p in t.vms
      ensures t.vms[p] < |t.instances| && t.instances[t.vms[p]].pid == p && MayBePublished(t.instances[t.vms[p]])
    {
      assert p in s.vms && s.vms[p] == t.vms[p];
      if a.id == t.vms[p] {
        StaysPublishable(s.instances[a.id], a);
      }
    }
  }

  lemma PublishStep(s: State, a: Action)
    requires Inv(s) && Enabled(s, a)
    ensures PublishInv(Next(s, a))
  {
    hide InstanceInv, StopInv, InternalNext, InstanceEnabled;
    if Internal(a) {
      PublishStepInternal(s, a);
    }
  }

  // A step of its own ends what made it publishable exactly when it removes itself.
  lemma KeepsPublishable(i: Instance, a: Action)
    requires InstanceInv(i) && InstanceEnabled(i, a) && MayBePublished(InstanceNext(i, a))
    ensures MayBePublished(i) && !a.RemoveFailed? && !a.Unpublish? && InstanceNext(i, a).pid == i.pid
  {
  }

  lemma StaysPublishedInternal(s: State, a: Action)
    requires Inv(s) && Internal(a) && Enabled(s, a)
    ensures StaysPublished(InternalNext(s, a))
  {
    hide InstanceInv, PublishInv, StopInv, InstanceNext, InstanceEnabled, MayBePublished, Panics;
    var t := InternalNext(s, a);
    forall id | 0 <= id < |t.instances| && MayBePublished(t.instances[id])
      ensures Published(t, id)
    {
      if id == a.id {
        KeepsPublishable(s.instances[id], a);
      }
      assert Published(s, id);
    }
  }

  lemma StaysPublishedStep(s: State, a: Action)
    requires Inv(s) && Enabled(s, a)
    ensures StaysPublished(Next(s, a))
  {
    hide InstanceInv, StopInv, InternalNext, InstanceEnabled;
    if Internal(a) {
      StaysPublishedInternal(s, a);
    } else {
      var t := Next(s, a);
      forall id | 0 <= id < |t.instances| && MayBePublished(t.instances[id])
        ensures Published(t, id)
      {
        assert id < |s.instances| ==> MayBePublished(s.instances[id]) && Published(s, id);
      }
    }
  }

  // An instance that leaves the map is stopping or goes on to stop itself.
  lemma StopsItself(i: Instance, a: Action)
    requires InstanceInv(i) && InstanceEnabled(i, a)
    ensures var j := InstanceNext(i, a);
            && j.pid == i.pid
            && (i.stopping || i.loop.StoppingFailed? || a.RemoveFailed? || a.Unpublish? ==>
                  j.stopping || j.loop.StoppingFailed?)
  {
  }

  lemma StopStepInternal(s: State, a: Action)
    requires Inv(s) && Internal(a) && Enabled(s, a)
    ensures StopInv(InternalNext(s, a))
  {
    var t, i := InternalNext(s, a), s.instances[a.id];
    var j := InstanceNext(i, a);
    assert InstanceInv(i);
    StopsItself(i, a);
    StopInvUpdate(s, t, a.id, j);
  }

  lemma StopInvUpdate(s: State, t: State, at: nat, j: Instance)
    requires StopInv(s) && at < |s.instances| && j.pid == s.instances[at].pid
    requires t.instances == s.instances[at := j] && t.closeCall == s.closeCall
    requires s.instances[at].stopping || s.instances[at].loop.StoppingFailed? ==> j.stopping || j.loop.StoppingFailed?
    requires t.vms == s.vms || (t.vms == Removed(s.vms, j.pid, at) && (j.stopping || j.loop.StoppingFailed?))
    ensures StopInv(t)
  {
  }

  lemma StopStep(s: State, a: Action)
    requires Inv(s) && Enabled(s, a)
    ensures StopInv(Next(s, a))
  {
    if Internal(a) {
      StopStepInternal(s, a);
    } else if a.CloseBegins? {
      forall id | 0 <= id < |s.instances| && Published(s, id)
        ensures id in s.vms.Values
      {
        assert s.instances[id].pid in s.vms;
      }
    }
  }

  lemma InvStep(s: State, a: Action)
    requires Inv(s) && Enabled(s, a)
    ensures Inv(Next(s, a))
  {
    InstancesStep(s, a);
    PublishStep(s, a);
    StaysPublishedStep(s, a);
    StopStep(s, a);
  }

  lemma {:induction false} InvRun(s: State, actions: seq<Action>, t: State)
    requires Inv(s) && Run(s, actions, t)
    ensures Inv(t)
    decreases |actions|
  {
    if actions != [] {
      InvStep(s, actions[0]);
      InvRun(Next(s, actions[0]), actions[1..], t);
    }
  }

  lemma ReachableInv(s: State)
    requires Reachable(s)
    ensures Inv(s)
  {
    var actions :| Run(START, actions, s);
    InvRun(START, actions, s);
  }

  // --------------------------------------------------------------------- safety

  // In every interleaving nothing is sent on a closed channel and no channel is closed twice.
  lemma NoPanic(s: State)
    requires Reachable(s)
    ensures !s.panicked
    ensures forall i <- s.instances :: i.closer.ChannelClosed? ==> forall n <- i.senders :: !i.senders[n].Admitted?
  {
    ReachableInv(s);
  }

  // Answers follow the send order, one per task, at every moment of every run.
  lemma AnswersFollowSends(s: State, id: nat)
    requires Reachable(s) && id < |s.instances|
    ensures Tasks(s.instances[id].replies) <= s.instances[id].sent
    ensures forall j, k :: 0 <= j < k < |s.instances[id].replies| ==>
              s.instances[id].replies[j].task != s.instances[id].replies[k].task
  {
    ReachableInv(s);
    var i := s.instances[id];
    assert InstanceInv(i);
    assert forall k :: 0 <= k < |i.replies| ==> i.sent[k] == i.replies[k].task;
  }

  // After a failed initialisation no task but the first is run, and every one of them reports an error.
  lemma FailedInitAnswers(s: State, id: nat, k: nat)
    requires Reachable(s) && id < |s.instances| && k < |s.instances[id].replies|
    ensures var i := s.instances[id]; i.replies[k].task.InitTask? <==> k == 0
    ensures var i := s.instances[id]; i.init.InitFailed? ==> i.replies[k].failed && (i.replies[k].ran <==> k == 0)
    ensures var i := s.instances[id]; i.init.InitOk? ==> i.replies[k].ran && !i.replies[0].failed
    ensures !s.instances[id].init.InitPending?
  {
    ReachableInv(s);
    assert InstanceInv(s.instances[id]);
    assert s.instances[id].sent[k] == s.instances[id].replies[k].task;
  }

  // When Done closes, the channel has been drained: all that was admitted was sent and answered once.
  lemma DoneMeansDrained(s: State, id: nat)
    requires Reachable(s) && id < |s.instances| && DoneClosed(s.instances[id].loop)
    ensures var i := s.instances[id]; Tasks(i.replies) == i.sent && i.queue == [] && i.senders == map[]
    ensures var i := s.instances[id]; forall n <- i.admitted ::
              exists k :: 0 <= k < |i.replies| && i.replies[k].task == CallTask(n)
    ensures var i := s.instances[id]; forall n :: CallTask(n) in Tasks(i.replies) ==> n in i.admitted
  {
    ReachableInv(s);
    var i := s.instances[id];
    assert InstanceInv(i);
    assert i.sent == Tasks(i.replies);
    forall n <- i.admitted
      ensures exists k :: 0 <= k < |i.replies| && i.replies[k].task == CallTask(n)
    {
      assert CallTask(n) in i.sent;
      var k :| 0 <= k < |i.sent| && i.sent[k] == CallTask(n);
      assert i.replies[k].task == CallTask(n);
    }
  }

  lemma InstanceHistoryStep(i: Instance, a: Action)
    requires InstanceEnabled(i, a)
    ensures var j := InstanceNext(i, a);
      i.sent <= j.sent && i.replies <= j.replies && i.admitted <= j.admitted
  {
  }

  lemma HistoryStep(s: State, a: Action, id: nat)
    requires Enabled(s, a) && id < |s.instances|
    ensures var t := Next(s, a);
            && id < |t.instances|
            && s.instances[id].sent <= t.instances[id].sent
            && s.instances[id].replies <= t.instances[id].replies
            && s.instances[id].admitted <= t.instances[id].admitted
  {
    hide InstanceNext, InstanceEnabled, Panics, Removed;
    if Internal(a) {
      InstanceHistoryStep(s.instances[a.id], a);
    }
  }

  // The histories only grow, so an answer once given is never taken back or reordered.
  lemma {:induction false} HistoryGrows(s: State, actions: seq<Action>, t: State, id: nat)
    requires Run(s, actions, t) && id < |s.instances|
    ensures id < |t.instances|
    ensures s.instances[id].sent <= t.instances[id].sent && s.instances[id].replies <= t.instances[id].replies
    ensures s.instances[id].admitted <= t.instances[id].admitted
    decreases |actions|
  {
    if actions != [] {
      HistoryStep(s, actions[0], id);
      HistoryGrows(Next(s, actions[0]), actions[1..], t, id);
    }
  }

  // A late clean-up of one instance never takes another instance out of the map,
  // and only the published instance's own clean-up ends its publication.
  lemma CleanupKeepsReplacement(s: State, a: Action, pid: string)
    requires Reachable(s) && Enabled(s, a) && pid in s.vms
    ensures var t := Next(s, a);
            (pid in t.vms && t.vms[pid] == s.vms[pid])
            || (pid !in t.vms && (a == RemoveFailed(s.vms[pid]) || a == Unpublish(s.vms[pid])))
  {
    hide InstanceInv, StopInv, InstanceNext, InstanceEnabled, MayBePublished, Panics, Stopped, Reachable;
    ReachableInv(s);
  }

  // The loop is in a task that it calls Run for, or is closing its VM.
  predicate UsesVm(i: Instance) {
    (i.loop.Busy? && !i.init.InitFailed?) || i.loop.ClosingVm?
  }

  // A PID is handed out again only after the previous instance has taken itself out of the map, and once
  // initialised it does that last: an instance that still runs tasks, or still closes its VM, is the
  // published one. So two instances of one PID never both do, unless one of them is closing the VM of a failed
  // initialisation.
  lemma OnePublishedPerPid(s: State, id: nat, other: nat)
    requires Reachable(s) && id < |s.instances| && other < |s.instances| && id != other
    requires s.instances[id].pid == s.instances[other].pid
    ensures MayBePublished(s.instances[id]) <==> Published(s, id)
    ensures UsesVm(s.instances[id]) && !s.instances[id].init.InitFailed? ==> Published(s, id)
    ensures UsesVm(s.instances[id]) && UsesVm(s.instances[other]) ==>
      s.instances[id].init.InitFailed? || s.instances[other].init.InitFailed?
    ensures !Published(s, id) ==> s.closed || s.instances[id].stopping || s.instances[id].loop.StoppingFailed?
  {
    ReachableInv(s);
  }

  // A restore can fail after it has made the VM. That instance leaves the map, and closes its VM only after
  // its queue has been emptied: by then another one of its PID may be running.
  lemma FailedCloseOverlaps(pid: string)
    returns (s: State)
    ensures Reachable(s) && |s.instances| == 2 && s.instances[0].pid == s.instances[1].pid == pid
    ensures UsesVm(s.instances[0]) && UsesVm(s.instances[1]) && s.vms == map[pid := 1]
  {
    hide Reachable, Run;
    s := Next(START, Create(pid));
    StartIsReachable();
    ReachableNext(START, Create(pid));
    var i := NewInstance(pid);
    assert s.vms == map[pid := 0] && s.instances == [i];
    s, i := FailsAlone(pid, s);
    ReachableNext(s, Create(pid));
    s := Next(s, Create(pid));
    assert s.vms == map[pid := 1] && s.instances == [i, NewInstance(pid)];
    ReachableNext(s, Receive(1));
    s := Next(s, Receive(1));
  }

  lemma StartIsReachable()
    ensures Reachable(START)
  {
    assert Run(START, [], START);
  }

  // The first instance fails to initialise and comes to the closing of its VM.
  lemma FailsAlone(pid: string, start: State) returns (s: State, i: Instance)
    requires Reachable(start) && start == State(false, NotCalled, map[pid := 0], [NewInstance(pid)], false)
    ensures Reachable(s) && s == State(false, NotCalled, map[], [i], false)
    ensures i.pid == pid && i.init.InitFailed? && i.loop.ClosingVm?
  {
    hide Reachable, Run;
    s, i := start, NewInstance(pid);
    s, i := Alone(s, i, Receive(0));
    s, i := Alone(s, i, InitFails(0));
    s, i := Alone(s, i, RemoveFailed(0));
    s, i := ClosesAlone(s, i);
  }

  lemma ClosesAlone(start: State, was: Instance) returns (s: State, i: Instance)
    requires Reachable(start) && start == State(false, NotCalled, map[], [was], false)
    requires was.init.InitFailed? && was.loop.StoppingFailed? && was.closer.NotStarted?
    requires was.queue == [] && was.senders == map[]
    ensures Reachable(s) && s == start.(instances := [i])
    ensures i.pid == was.pid && i.init.InitFailed? && i.loop.ClosingVm?
  {
    hide Reachable, Run;
    s, i := start, was;
    s, i := Alone(s, i, StopFailed(0));
    s, i := Alone(s, i, CloseTasks(0));
    s, i := Alone(s, i, RangeEnds(0));
  }

  // A step of the only instance.
  lemma Alone(s: State, i: Instance, a: Action) returns (t: State, j: Instance)
    requires Reachable(s) && s.instances == [i] && Internal(a) && a.id == 0 && InstanceEnabled(i, a)
    ensures Reachable(t) && j == InstanceNext(i, a)
    ensures t == s.(instances := [j], panicked := s.panicked || Panics(i, a),
                    vms := if a.RemoveFailed? || a.Unpublish? then Removed(s.vms, i.pid, 0) else s.vms)
  {
    hide Reachable, Run, InstanceNext, InstanceEnabled;
    ReachableNext(s, a);
    t, j := Next(s, a), InstanceNext(i, a);
    assert t.instances == [j];
  }

  // When Close has returned no loop runs, nothing is published, and that is final.
  lemma {:induction false} CloseIsFinal(s: State, actions: seq<Action>, t: State)
    requires Reachable(s) && s.closeCall.Returned? && Run(s, actions, t)
    ensures forall i <- t.instances :: i.loop.Exited?
    ensures t.vms == map[] && t.closed && |t.instances| == |s.instances|
    decreases |actions|
  {
    ReachableInv(s);
    if s.vms != map[] {
      var p :| p in s.vms;
      assert s.instances[s.vms[p]].loop.Exited?;
      assert MayBePublished(s.instances[s.vms[p]]);
    }
    if actions != [] {
      ReachableNext(s, actions[0]);
      CloseIsFinal(Next(s, actions[0]), actions[1..], t);
    }
  }

  lemma RunStep(s: State, a: Action)
    requires Enabled(s, a)
    ensures Run(s, [a], Next(s, a))
  {
    assert [a][1..] == [];
    assert Run(Next(s, a), [], Next(s, a));
  }

  lemma {:induction false} RunAppend(s: State, actions: seq<Action>, t: State, a: Action)
    requires Run(s, actions, t) && Enabled(t, a)
    ensures Run(s, actions + [a], Next(t, a))
    decreases |actions|
  {
    if actions == [] {
      assert actions + [a] == [a];
      RunStep(s, a);
    } else {
      RunAppend(Next(s, actions[0]), actions[1..], t, a);
      assert (actions + [a])[1..] == actions[1..] + [a];
    }
  }

  lemma ReachableNext(s: State, a: Action)
    requires Reachable(s) && Enabled(s, a)
    ensures Reachable(Next(s, a))
  {
    var actions :| Run(START, actions, s);
    RunAppend(START, actions, s, a);
  }

  // ------------------------------------------------------------------- progress

  function LoopWeight(l: Loop): nat {
    match l
    case Busy(_) => 8
    case RemovingFailed => 7
    case StoppingFailed => 6
    case Idle => 5
    case ClosingVm => 4
    case Unpublishing => 3
    case ClosingDone => 2
    case Finished => 1
    case Exited => 0
  }

  ghost function SendersWeight(m: map<nat, SenderPhase>): nat {
    6 * |InPhase(m, Admitted)| + |InPhase(m, Sent)|
  }

  function InPhase(m: map<nat, SenderPhase>, p: SenderPhase): set<nat> {
    set n | n in m && m[n] == p
  }

  ghost function Weight(i: Instance): nat {
    SendersWeight(i.senders) + 4 * |i.queue| + LoopWeight(i.loop)
    + (match i.closer case NotStarted => 2 case AwaitingSenders => 1 case ChannelClosed => 0)
  }

  lemma SendersWeightSend(m: map<nat, SenderPhase>, n: nat)
    requires n in m && m[n].Admitted?
    ensures SendersWeight(m[n := Sent]) == SendersWeight(m) - 5
  {
    var t := m[n := Sent];
    assert n in InPhase(m, Admitted) && n !in InPhase(m, Sent);
    assert InPhase(t, Admitted) == InPhase(m, Admitted) - {n};
    assert InPhase(t, Sent) == InPhase(m, Sent) + {n};
  }

  lemma SendersWeightLeave(m: map<nat, SenderPhase>, n: nat)
    requires n in m && m[n].Sent?
    ensures SendersWeight(m - {n}) == SendersWeight(m) - 1
  {
    var t := m - {n};
    assert n in InPhase(m, Sent);
    assert InPhase(t, Admitted) == InPhase(m, Admitted);
    assert InPhase(t, Sent) == InPhase(m, Sent) - {n};
  }

  // Every step of an instance but a repeated stop makes it strictly lighter.
  lemma StepDecreases(i: Instance, a: Action)
    requires InstanceInv(i) && InstanceEnabled(i, a)
    ensures if a.Stop? && i.stopping then InstanceNext(i, a) == i else Weight(InstanceNext(i, a)) < Weight(i)
  {
    hide FifoInv, SenderInv, SendersWeight;
    if a.Send? {
      SendersWeightSend(i.senders, a.sender);
    } else if a.Leave? {
      SendersWeightLeave(i.senders, a.sender);
    }
  }

  function ActionFor(i: Instance, id: nat): Action
    requires i.stopping && !i.loop.Exited?
  {
    match i.loop
    case Busy(t) => if t.InitTask? && !i.init.InitFailed? then InitSucceeds(id) else Answer(id, true)
    case RemovingFailed => RemoveFailed(id)
    case StoppingFailed => StopFailed(id)
    case ClosingVm => CloseVm(id)
    case Unpublishing => Unpublish(id)
    case ClosingDone => CloseDone(id)
    case Finished => Exit(id)
    case Idle =>
      if i.queue != [] then Receive(id)
      else if i.closer.ChannelClosed? then RangeEnds(id)
      else CloseTasks(id)
  }

  // A stopping instance is never stuck before its loop has exited, even with a full queue:
  // the loop, an admitted sender or the closer can move.
  lemma StoppingMakesProgress(i: Instance, id: nat) returns (a: Action)
    requires InstanceInv(i) && i.stopping && !i.loop.Exited?
    ensures InstanceEnabled(i, a) && Internal(a) && !a.Stop? && a.id == id
  {
    a := ActionFor(i, id);
    if a.CloseTasks? && i.senders != map[] {
      var n :| n in i.senders;
      a := if i.senders[n].Admitted? then Send(id, n) else Leave(id, n);
    }
  }

  ghost function TotalWeight(instances: seq<Instance>): nat {
    if instances == [] then 0 else Weight(instances[0]) + TotalWeight(instances[1..])
  }

  lemma {:induction false} TotalWeightUpdate(instances: seq<Instance>, id: nat, i: Instance)
    requires id < |instances|
    ensures TotalWeight(instances[id := i]) == TotalWeight(instances) - Weight(instances[id]) + Weight(i)
  {
    if id == 0 {
      assert instances[0 := i][1..] == instances[1..];
    } else {
      TotalWeightUpdate(instances[1..], id - 1, i);
      assert instances[id := i][1..] == instances[1..][id - 1 := i];
    }
  }

  ghost function CloseWeight(c: CloseCall): nat {
    match c
    case NotCalled => 0
    case StoppingAll(owed) => 2 + |owed|
    case Waiting => 1
    case Returned => 0
  }

  ghost function GlobalWeight(s: State): nat {
    TotalWeight(s.instances) + CloseWeight(s.closeCall)
  }

  lemma ClosingDecreasesInternal(s: State, a: Action)
    requires Inv(s) && Internal(a) && Enabled(s, a)
    ensures InternalNext(s, a) == s || GlobalWeight(InternalNext(s, a)) < GlobalWeight(s)
  {
    var i := s.instances[a.id];
    assert InstanceInv(i);
    StepDecreases(i, a);
    TotalWeightUpdate(s.instances, a.id, InstanceNext(i, a));
    if a.Stop? && i.stopping {
      assert s.instances[a.id := i] == s.instances;
    }
  }

  // Once Close has begun, every step that changes the state makes the whole manager strictly lighter ...
  lemma ClosingDecreases(s: State, a: Action)
    requires Reachable(s) && s.closed && Enabled(s, a)
    ensures Next(s, a) == s || GlobalWeight(Next(s, a)) < GlobalWeight(s)
  {
    hide Reachable, GlobalWeight, InternalNext, Inv;
    ReachableInv(s);
    if Internal(a) {
      ClosingDecreasesInternal(s, a);
    } else {
      ClosingDecreasesGate(s, a);
    }
  }

  lemma ClosingDecreasesGate(s: State, a: Action)
    requires Inv(s) && s.closed && Enabled(s, a) && !Internal(a)
    ensures GlobalWeight(Next(s, a)) < GlobalWeight(s)
  {
    hide InstanceInv, PublishInv, StopInv, InternalNext, InstanceEnabled, Weight, Stopped;
    if a.CloseStops? {
      StoppedIsNoHeavier(s.instances[a.id], a.id);
      TotalWeightUpdate(s.instances, a.id, Stopped(s.instances[a.id]));
    }
  }

  lemma StoppedIsNoHeavier(i: Instance, id: nat)
    requires InstanceInv(i)
    ensures Weight(Stopped(i)) <= Weight(i)
  {
    hide InstanceInv;
    StepDecreases(i, Stop(id));
  }

  // ... and until Close returns some such step is enabled, so Close returns after at most GlobalWeight steps.
  lemma ClosingMakesProgress(s: State) returns (a: Action)
    requires Reachable(s) && s.closed && !s.closeCall.Returned?
    ensures Enabled(s, a) && Next(s, a) != s
  {
    ReachableInv(s);
    match s.closeCall
    case NotCalled =>
      assert false;
      a := CloseWaits;
    case StoppingAll(owed) =>
      if owed == {} {
        a := CloseWaits;
      } else {
        var id :| id in owed;
        a := CloseStops(id);
        assert id !in Next(s, a).closeCall.owed;
      }
    case Waiting =>
      if forall i <- s.instances :: i.loop.Exited? {
        a := CloseReturns;
      } else {
        var id :| 0 <= id < |s.instances| && !s.instances[id].loop.Exited?;
        a := ProgressAt(s, id);
      }
  }

  lemma ProgressAt(s: State, id: nat) returns (a: Action)
    requires Reachable(s) && id < |s.instances| && !s.instances[id].loop.Exited?
    requires s.instances[id].stopping || s.instances[id].loop.StoppingFailed?
    ensures Enabled(s, a) && Internal(a) && a.id == id && Next(s, a) != s
    ensures Weight(Next(s, a).instances[id]) < Weight(s.instances[id])
  {
    ReachableInv(s);
    var i := s.instances[id];
    assert InstanceInv(i);
    if i.loop.StoppingFailed? {
      a := StopFailed(id);
    } else {
      a := StoppingMakesProgress(i, id);
    }
    StepDecreases(i, a);
    assert Next(s, a).instances[id] == InstanceNext(i, a);
  }

  lemma KeepsWeight(i: Instance, a: Action, j: Instance)
    requires InstanceInv(i) && i.stopping
    requires j == i || j == Stopped(i) || (InstanceEnabled(i, a) && j == InstanceNext(i, a))
    ensures j.stopping && Weight(j) <= Weight(i)
  {
    if j != i && j != Stopped(i) {
      StepDecreases(i, a);
    }
  }

  // No step of the others, and no admission, makes a stopping instance heavier.
  lemma OthersKeepWeight(s: State, a: Action, id: nat)
    requires Reachable(s) && Enabled(s, a) && id < |s.instances| && s.instances[id].stopping
    ensures Next(s, a).instances[id].stopping
    ensures Weight(Next(s, a).instances[id]) <= Weight(s.instances[id])
  {
    ReachableInv(s);
    assert InstanceInv(s.instances[id]);
    KeepsWeight(s.instances[id], a, Next(s, a).instances[id]);
  }
}
