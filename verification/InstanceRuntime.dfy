/** The instance manager in the program's own form: objects whose critical sections
    update their fields. Each method is one atomic section and is proved to be exactly
    one action of InstanceProtocol; RunInstance is the task loop itself. */
module InstanceRuntime {
  import opened InstanceProtocol

  datatype Error = Ok | ErrVmmClosed | ErrProcessNotFound | ErrProcessAlreadyExists | ErrVmStopping

  class VmInstance {
    ghost const id: nat
    const pid: string
    var tasks: seq<Task>                   // contents of the buffered channel
    var stopping: bool
    var closer: Closer
    var submitters: map<nat, SenderPhase>  // the wait group
    var init: InitStatus
    var loop: Loop
    ghost var admitted: set<nat>
    ghost var sent: seq<Task>
    ghost var replies: seq<Reply>

    constructor (pid: string, ghost id: nat)
      ensures this.id == id && View() == NewInstance(pid)
    {
      this.id, this.pid := id, pid;
      tasks, stopping, closer, submitters := [InitTask], false, NotStarted, map[];
      init, loop := InitPending, Idle;
      admitted, sent, replies := {}, [InitTask], [];
    }

    ghost function View(): Instance
      reads this
    {
      Instance(pid, tasks, stopping, closer, submitters, init, loop, admitted, sent, replies)
    }

    // stopInstance: at most one closer is ever started.
    method Stop()
      modifies this`stopping, this`closer
      ensures View() == Stopped(old(View()))
    {
      stopping := true;
      if closer == NotStarted {
        closer := AwaitingSenders;
      }
    }

    // The loop answers a task: Run is skipped, and InitErr reported, after a failed initialisation.
    method AnswerTask(runFails: bool)
      requires loop.Busy? && !(loop.task.InitTask? && !init.InitFailed?)
      modifies this`loop, this`replies
      ensures InstanceEnabled(old(View()), Answer(id, runFails || old(init).InitFailed?))
      ensures View() == InstanceNext(old(View()), Answer(id, runFails || old(init).InitFailed?))
    {
      var err := init.InitFailed?;
      var ran := false;
      if !err {
        err, ran := runFails, true;
      }
      replies := replies + [Reply(loop.task, ran, err)];
      loop := Idle;
    }
  }

  class Vmm {
    var closed: bool
    var vms: map<string, VmInstance>
    ghost var closeCall: CloseCall
    ghost var all: seq<VmInstance>   // every instance ever created, in creation order
    ghost var panicked: bool

    ghost predicate Valid()
      reads this, all
    {
      && (forall k :: 0 <= k < |all| ==> all[k].id == k)
      && (forall p <- vms :: vms[p] in all)
    }

    ghost predicate Owns(instance: VmInstance)
      reads this
    {
      instance.id < |all| && all[instance.id] == instance
    }

    ghost function View(): State
      reads this, all
    {
      State(closed, closeCall, map p | p in vms :: vms[p].id,
            seq(|all|, k requires 0 <= k < |all| reads this, all => all[k].View()), panicked)
    }

    constructor ()
      ensures Valid() && View() == START
    {
      closed, vms, closeCall, all, panicked := false, map[], NotCalled, [], false;
    }

    method GetInstance(pid: string) returns (instance: VmInstance?, err: Error)
      requires Valid()
      ensures err == if closed then ErrVmmClosed else if pid in vms then Ok else ErrProcessNotFound
      ensures err == Ok ==> instance != null && Owns(instance) && View().vms[pid] == instance.id
    {
      if closed { return null, ErrVmmClosed; }
      if pid !in vms { return null, ErrProcessNotFound; }
      return vms[pid], Ok;
    }

    method CreateInstance(pid: string) returns (instance: VmInstance?, err: Error)
      requires Valid()
      modifies this`vms, this`all
      ensures Valid()
      ensures err == if old(closed) then ErrVmmClosed else if pid in old(vms) then ErrProcessAlreadyExists else Ok
      ensures err == Ok <==> Enabled(old(View()), Create(pid))
      ensures err == Ok ==> View() == Next(old(View()), Create(pid)) && fresh(instance) && Owns(instance)
      ensures err != Ok ==> View() == old(View())
      ensures err == ErrProcessAlreadyExists ==> instance == old(vms)[pid]
    {
      hide InstanceEnabled, InternalNext, Stopped, Removed;
      if closed { return null, ErrVmmClosed; }
      if pid in vms { return vms[pid], ErrProcessAlreadyExists; }
      ghost var before := View();
      var created := new VmInstance(pid, |all|);
      all := all + [created];
      vms := vms[pid := created];
      assert View().vms == before.vms[pid := |before.instances|];
      assert View().instances == before.instances + [NewInstance(pid)];
      return created, Ok;
    }

    // submit, up to the point where the sender is counted and the locks are released.
    method AdmitSender(instance: VmInstance, sender: nat) returns (err: Error)
      requires Valid() && Owns(instance) && sender !in instance.admitted
      modifies instance`submitters, instance`admitted
      ensures Valid()
      ensures err == if closed then ErrVmmClosed else if old(instance.stopping) then ErrVmStopping else Ok
      ensures err == Ok <==> Enabled(old(View()), Admit(instance.id, sender))
      ensures err == Ok ==> View() == Next(old(View()), Admit(instance.id, sender))
      ensures err != Ok ==> View() == old(View())
    {
      if closed { return ErrVmmClosed; }
      if instance.stopping { return ErrVmStopping; }
      ghost var before := View();
      instance.submitters := instance.submitters[sender := Admitted];
      instance.admitted := instance.admitted + {sender};
      assert View().instances == before.instances[instance.id := instance.View()];
      return Ok;
    }

    // The channel send of submit, which waits while the channel is open and full.
    method SendTask(instance: VmInstance, sender: nat)
      requires Valid() && Owns(instance) && Enabled(View(), Send(instance.id, sender))
      modifies this`panicked, instance`tasks, instance`sent, instance`submitters
      ensures Valid() && View() == Next(old(View()), Send(instance.id, sender))
    {
      ghost var before := View();
      if instance.closer == ChannelClosed {
        panicked := true;
      }
      instance.tasks := instance.tasks + [CallTask(sender)];
      instance.sent := instance.sent + [CallTask(sender)];
      instance.submitters := instance.submitters[sender := Sent];
      assert View().instances == before.instances[instance.id := instance.View()];
    }

    method StopInstance(instance: VmInstance)
      requires Valid() && Owns(instance)
      modifies instance`stopping, instance`closer
      ensures Valid() && Enabled(old(View()), InstanceProtocol.Action.Stop(instance.id))
      ensures View() == Next(old(View()), InstanceProtocol.Action.Stop(instance.id))
    {
      ghost var before := View();
      instance.Stop();
      assert View().instances == before.instances[instance.id := instance.View()];
    }

    // The goroutine stopInstance starts, once no counted sender is left.
    method CloseChannel(instance: VmInstance)
      requires Valid() && Owns(instance) && Enabled(View(), CloseTasks(instance.id))
      modifies instance`closer
      ensures Valid() && View() == Next(old(View()), CloseTasks(instance.id))
    {
      ghost var before := View();
      instance.closer := ChannelClosed;
      assert View().instances == before.instances[instance.id := instance.View()];
    }

    method RemoveInstance(instance: VmInstance)
      requires Valid() && Owns(instance)
      modifies this`vms
      ensures Valid()
      ensures View() == old(View()).(vms := Removed(old(View()).vms, instance.pid, instance.id))
    {
      if instance.pid in vms && vms[instance.pid] == instance {
        vms := vms - {instance.pid};
      }
    }

    // Close, up to the point where the gate is shut and the published instances are collected.
    method ShutGate() returns (instances: seq<VmInstance>)
      requires Valid() && closeCall == NotCalled
      modifies this`closed, this`closeCall
      ensures Valid() && View() == Next(old(View()), CloseBegins)
      ensures (forall p <- vms :: vms[p] in instances) && forall i <- instances :: exists p <- vms :: vms[p] == i
    {
      closed := true;
      closeCall := StoppingAll(View().vms.Values);
      instances := [];
      var left := vms.Keys;
      while left != {}
        invariant left <= vms.Keys
        invariant forall p <- vms :: p in left || vms[p] in instances
        invariant forall i <- instances :: exists p <- vms :: vms[p] == i
      {
        var pid :| pid in left;
        left := left - {pid};
        instances := instances + [vms[pid]];
      }
    }

    // One receive from the channel.
    method ReceiveTask(instance: VmInstance) returns (task: Task)
      requires Valid() && Owns(instance) && Inv(View()) && InstanceEnabled(instance.View(), Receive(instance.id))
      modifies instance`tasks, instance`loop
      ensures Valid() && Inv(View()) && InstanceEnabled(old(instance.View()), Receive(instance.id))
      ensures instance.View() == InstanceNext(old(instance.View()), Receive(instance.id))
      ensures task == old(instance.tasks)[0] && instance.loop == Busy(task)
    {
      hide Inv;
      ghost var before := View();
      ghost var a := Receive(instance.id);
      task := instance.tasks[0];
      instance.loop := Busy(task);
      instance.tasks := instance.tasks[1..];
      assert View().instances == before.instances[instance.id := instance.View()];
      assert View() == Next(before, a);
      InvStep(before, a);
    }

    // The body of the loop for any task but a running initialisation.
    method Process(instance: VmInstance, runFails: bool)
      requires Valid() && Owns(instance) && Inv(View()) && instance.loop.Busy?
      requires !(instance.loop.task.InitTask? && !instance.init.InitFailed?)
      modifies instance`loop, instance`replies
      ensures Valid() && Inv(View()) && InstanceEnabled(old(instance.View()), Answer(instance.id, runFails || old(instance.init).InitFailed?))
      ensures instance.View() == InstanceNext(old(instance.View()), Answer(instance.id, runFails || old(instance.init).InitFailed?))
    {
      hide Inv;
      ghost var before := View();
      ghost var a := Answer(instance.id, runFails || old(instance.init).InitFailed?);
      instance.AnswerTask(runFails);
      assert View().instances == before.instances[instance.id := instance.View()];
      assert View() == Next(before, a);
      InvStep(before, a);
    }

    // The initialisation task fills in InitErr ...
    method Initialise(instance: VmInstance, initFails: bool)
      requires Valid() && Owns(instance) && Inv(View()) && instance.loop == Busy(InitTask) && !instance.init.InitFailed?
      modifies instance`init, instance`loop, instance`replies
      ensures Valid() && Inv(View()) && InstanceEnabled(old(instance.View()), (if initFails then InitFails(instance.id) else InitSucceeds(instance.id)))
      ensures instance.View() == InstanceNext(old(instance.View()), (if initFails then InitFails(instance.id) else InitSucceeds(instance.id)))
    {
      hide Inv;
      ghost var before := View();
      ghost var a := (if initFails then InitFails(instance.id) else InitSucceeds(instance.id));
      if initFails {
        instance.init, instance.loop := InitFailed, RemovingFailed;
      } else {
        instance.init, instance.loop := InitOk, Idle;
        instance.replies := instance.replies + [Reply(InitTask, true, false)];
      }
      assert View().instances == before.instances[instance.id := instance.View()];
      assert View() == Next(before, a);
      InvStep(before, a);
    }

    // ... and a failed one takes its instance out of the map ...
    method RemoveFailedInstance(instance: VmInstance)
      requires Valid() && Owns(instance) && Inv(View()) && instance.loop.RemovingFailed?
      modifies this`vms, instance`loop
      ensures Valid() && Inv(View()) && InstanceEnabled(old(instance.View()), RemoveFailed(instance.id))
      ensures instance.View() == InstanceNext(old(instance.View()), RemoveFailed(instance.id))
      ensures View().vms == Removed(old(View()).vms, instance.pid, instance.id)
    {
      hide Inv;
      ghost var before := View();
      ghost var a := RemoveFailed(instance.id);
      RemoveInstance(instance);
      instance.loop := StoppingFailed;
      assert View().instances == before.instances[instance.id := instance.View()];
      assert View() == Next(before, a);
      InvStep(before, a);
    }

    // ... and stops it.
    method StopFailedInstance(instance: VmInstance)
      requires Valid() && Owns(instance) && Inv(View()) && instance.loop.StoppingFailed?
      modifies instance`stopping, instance`closer, instance`loop, instance`replies
      ensures Valid() && Inv(View()) && InstanceEnabled(old(instance.View()), StopFailed(instance.id))
      ensures instance.View() == InstanceNext(old(instance.View()), StopFailed(instance.id))
    {
      hide Inv;
      ghost var before := View();
      ghost var a := StopFailed(instance.id);
      instance.Stop();
      instance.replies := instance.replies + [Reply(InitTask, true, true)];
      instance.loop := Idle;
      assert View().instances == before.instances[instance.id := instance.View()];
      assert View() == Next(before, a);
      InvStep(before, a);
    }

    // The range over Tasks ends when the channel is closed and empty.
    method EndRange(instance: VmInstance)
      requires Valid() && Owns(instance) && Inv(View()) && InstanceEnabled(instance.View(), RangeEnds(instance.id))
      modifies instance`loop
      ensures Valid() && Inv(View()) && InstanceEnabled(old(instance.View()), RangeEnds(instance.id))
      ensures instance.View() == InstanceNext(old(instance.View()), RangeEnds(instance.id))
    {
      hide Inv;
      ghost var before := View();
      ghost var a := RangeEnds(instance.id);
      instance.loop := ClosingVm;
      assert View().instances == before.instances[instance.id := instance.View()];
      assert View() == Next(before, a);
      InvStep(before, a);
    }

    // Vm.Close has returned, whatever its error.
    method FinishVm(instance: VmInstance)
      requires Valid() && Owns(instance) && Inv(View()) && instance.loop.ClosingVm?
      modifies instance`loop
      ensures Valid() && Inv(View()) && InstanceEnabled(old(instance.View()), CloseVm(instance.id))
      ensures instance.View() == InstanceNext(old(instance.View()), CloseVm(instance.id))
    {
      hide Inv;
      ghost var before := View();
      ghost var a := CloseVm(instance.id);
      instance.loop := Unpublishing;
      assert View().instances == before.instances[instance.id := instance.View()];
      assert View() == Next(before, a);
      InvStep(before, a);
    }

    // The last clean-up of the map by the loop.
    method RemoveClosed(instance: VmInstance)
      requires Valid() && Owns(instance) && Inv(View()) && instance.loop.Unpublishing?
      modifies this`vms, instance`loop
      ensures Valid() && Inv(View()) && InstanceEnabled(old(instance.View()), Unpublish(instance.id))
      ensures instance.View() == InstanceNext(old(instance.View()), Unpublish(instance.id))
      ensures View().vms == Removed(old(View()).vms, instance.pid, instance.id)
    {
      hide Inv;
      ghost var before := View();
      ghost var a := Unpublish(instance.id);
      RemoveInstance(instance);
      instance.loop := ClosingDone;
      assert View().instances == before.instances[instance.id := instance.View()];
      assert View() == Next(before, a);
      InvStep(before, a);
    }

    // The first deferred call closes Done ...
    method CloseDoneChannel(instance: VmInstance)
      requires Valid() && Owns(instance) && Inv(View()) && instance.loop.ClosingDone?
      modifies instance`loop
      ensures Valid() && Inv(View()) && InstanceEnabled(old(instance.View()), CloseDone(instance.id))
      ensures instance.View() == InstanceNext(old(instance.View()), CloseDone(instance.id))
    {
      hide Inv;
      ghost var before := View();
      ghost var a := CloseDone(instance.id);
      instance.loop := Finished;
      assert View().instances == before.instances[instance.id := instance.View()];
      assert View() == Next(before, a);
      InvStep(before, a);
    }

    // ... and the second leaves the manager's wait group.
    method LeaveWaitGroup(instance: VmInstance)
      requires Valid() && Owns(instance) && Inv(View()) && instance.loop.Finished?
      modifies instance`loop
      ensures Valid() && Inv(View()) && InstanceEnabled(old(instance.View()), Exit(instance.id))
      ensures instance.View() == InstanceNext(old(instance.View()), Exit(instance.id))
    {
      hide Inv;
      ghost var before := View();
      ghost var a := Exit(instance.id);
      instance.loop := Exited;
      assert View().instances == before.instances[instance.id := instance.View()];
      assert View() == Next(before, a);
      InvStep(before, a);
    }

    // One turn of the loop: receive a task and answer it.
    method ProcessNext(instance: VmInstance, initFails: bool, runFails: nat -> bool)
      requires Valid() && Owns(instance) && Inv(View()) && instance.loop.Idle? && instance.tasks != []
      modifies this`vms, instance
      ensures Valid() && Inv(View())
      ensures instance.loop.Idle? && instance.tasks == old(instance.tasks)[1..] && instance.sent == old(instance.sent)
      ensures old(instance.closer).ChannelClosed? ==> instance.closer.ChannelClosed?
      ensures instance.replies
        == old(instance.replies) + [ReplyTo(old(instance.init), old(instance.tasks)[0], initFails, runFails)]
      ensures View().vms ==
        if old(instance.init).InitPending? && initFails
        then Removed(old(View()).vms, instance.pid, instance.id) else old(View()).vms
    {
      hide Inv;
      HeadIsInit(View(), instance.id);
      var task := ReceiveTask(instance);
      FinishTask(instance, initFails, runFails);
    }

    // The body of the loop for the task in hand.
    method FinishTask(instance: VmInstance, initFails: bool, runFails: nat -> bool)
      requires Valid() && Owns(instance) && Inv(View()) && instance.loop.Busy?
      requires instance.loop.task.InitTask? <==> instance.init.InitPending?
      modifies this`vms, instance
      ensures Valid() && Inv(View()) && instance.loop.Idle?
      ensures instance.tasks == old(instance.tasks) && instance.sent == old(instance.sent)
      ensures old(instance.closer).ChannelClosed? ==> instance.closer.ChannelClosed?
      ensures instance.replies
        == old(instance.replies) + [ReplyTo(old(instance.init), old(instance.loop).task, initFails, runFails)]
      ensures View().vms ==
        if old(instance.init).InitPending? && initFails
        then Removed(old(View()).vms, instance.pid, instance.id) else old(View()).vms
    {
      hide Inv, Removed;
      var task := instance.loop.task;
      if task.InitTask? && !instance.init.InitFailed? {
        Initialise(instance, initFails);
        if instance.loop.RemovingFailed? {
          RemoveFailedInstance(instance);
          StopFailedInstance(instance);
        }
      } else {
        Process(instance, if task.CallTask? then runFails(task.sender) else initFails);
      }
    }

    // The range over Tasks until the channel is empty, open or closed: what was queued is answered in order.
    method DrainQueue(instance: VmInstance, initFails: bool, runFails: nat -> bool)
      requires Valid() && Owns(instance) && Inv(View()) && instance.loop.Idle?
      modifies this`vms, instance
      ensures Valid() && Inv(View()) && instance.loop.Idle? && instance.tasks == []
      ensures instance.sent == old(instance.sent) && Tasks(instance.replies) == instance.sent
      ensures old(instance.replies) <= instance.replies
      ensures old(instance.closer).ChannelClosed? ==> instance.closer.ChannelClosed?
      ensures View().vms == old(View()).vms || View().vms == Removed(old(View()).vms, instance.pid, instance.id)
    {
      hide Inv;
      while instance.tasks != []
        invariant Valid() && Owns(instance) && Inv(View())
        invariant instance.loop.Idle? && instance.sent == old(instance.sent)
        invariant old(instance.replies) <= instance.replies
        invariant old(instance.closer).ChannelClosed? ==> instance.closer.ChannelClosed?
        invariant View().vms == old(View()).vms || View().vms == Removed(old(View()).vms, instance.pid, instance.id)
        decreases |instance.tasks|
      {
        ProcessNext(instance, initFails, runFails);
      }
      IdleHasAnswered(View(), instance.id);
    }

    // After the range: close the VM and leave the map.
    method CloseAndRemove(instance: VmInstance)
      requires Valid() && Owns(instance) && Inv(View()) && InstanceEnabled(instance.View(), RangeEnds(instance.id))
      modifies this`vms, instance`loop
      ensures Valid() && Inv(View()) && instance.loop.ClosingDone?
      ensures View().vms == Removed(old(View()).vms, instance.pid, instance.id)
    {
      hide Inv;
      EndRange(instance);
      FinishVm(instance);
      RemoveClosed(instance);
    }

    // The two deferred calls.
    method SignalDone(instance: VmInstance)
      requires Valid() && Owns(instance) && Inv(View()) && instance.loop.ClosingDone?
      modifies instance`loop
      ensures Valid() && Inv(View()) && instance.loop.Exited?
    {
      hide Inv;
      CloseDoneChannel(instance);
      LeaveWaitGroup(instance);
    }

    // runInstance, once its channel is closed: when it returns, everything that was sent has been
    // answered, in order, and of the map it has touched no entry but its own.
    method RunInstance(instance: VmInstance, initFails: bool, runFails: nat -> bool)
      requires Valid() && Owns(instance) && Inv(View())
      requires instance.loop.Idle? && instance.closer.ChannelClosed?
      modifies this`vms, instance
      ensures Valid() && Inv(View()) && instance.loop.Exited?
      ensures View().vms == Removed(old(View()).vms, instance.pid, instance.id)
      ensures instance.sent == old(instance.sent) && Tasks(instance.replies) == instance.sent
    {
      DrainQueue(instance, initFails, runFails);
      CloseAndRemove(instance);
      SignalDone(instance);
      ExitedHasAnswered(View(), instance.id);
    }
  }

  // What the loop answers: the first task is the initialisation; after a failed one nothing is run.
  function ReplyTo(init: InitStatus, task: Task, initFails: bool, runFails: nat -> bool): Reply {
    if init.InitFailed? then Reply(task, false, true)
    else match task
      case InitTask => Reply(task, true, initFails)
      case CallTask(sender) => Reply(task, true, runFails(sender))
  }

  // The next task of an idle loop is the initialisation exactly when that is still to come.
  lemma HeadIsInit(s: State, id: nat)
    requires Inv(s) && id < |s.instances| && s.instances[id].loop.Idle? && s.instances[id].queue != []
    ensures s.instances[id].queue[0].InitTask? <==> s.instances[id].init.InitPending?
  {
    var i := s.instances[id];
    assert InstanceInv(i);
    assert i.sent[|i.replies|] == i.queue[0];
  }

  lemma IdleHasAnswered(s: State, id: nat)
    requires Inv(s) && id < |s.instances| && s.instances[id].loop.Idle? && s.instances[id].queue == []
    ensures Tasks(s.instances[id].replies) == s.instances[id].sent
  {
    assert InstanceInv(s.instances[id]);
  }

  lemma ExitedHasAnswered(s: State, id: nat)
    requires Inv(s) && id < |s.instances| && s.instances[id].loop.Exited?
    ensures Tasks(s.instances[id].replies) == s.instances[id].sent
  {
    assert InstanceInv(s.instances[id]);
  }
}
