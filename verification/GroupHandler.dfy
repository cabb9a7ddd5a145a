/** The group handler as an object: its callbacks insert into and pop from its two dictionaries in place, and
    each of them is proved to perform its step of the group book. */
module PartnerGroups {
  import opened Basics
  import opened GroupBook

  class GroupHandler {
    var groupClients: map<GroupId, ClientId>
    var clientOrder: seq<GroupId>
    var taskGroupMap: map<TaskId, GroupId>
    var ops: map<nat, Op>
    var next: nat
    ghost var log: seq<Entry>

    ghost function View(): Book
      reads this
    {
      Book(groupClients, clientOrder, taskGroupMap, ops, next, log)
    }

    constructor ()
      ensures View() == EMPTY
    {
      groupClients, clientOrder, taskGroupMap, ops, next, log := map[], [], map[], map[], 0, [];
    }

    /** The tasks assigned to the group. */
    method AssignedTasks(group: GroupId) returns (found: set<TaskId>)
      ensures found == TasksOf(View(), group)
    {
      found := {};
      var todo := taskGroupMap.Keys;
      while todo != {}
        invariant todo <= taskGroupMap.Keys
        invariant found == set t | t in taskGroupMap && t !in todo && taskGroupMap[t] == group
        decreases todo
      {
        var t :| t in todo;
        todo := todo - {t};
        if taskGroupMap[t] == group {
          found := found + {t};
        }
      }
    }

    method Unassign(gone: set<TaskId>)
      requires gone <= taskGroupMap.Keys
      modifies `taskGroupMap
      ensures taskGroupMap == old(taskGroupMap) - gone
    {
      var todo := gone;
      while todo != {}
        invariant todo <= gone && todo <= taskGroupMap.Keys
        invariant taskGroupMap == old(taskGroupMap) - (gone - todo)
        decreases todo
      {
        var t :| t in todo;
        todo := todo - {t};
        taskGroupMap := taskGroupMap - {t};
      }
      assert gone - todo == gone;
    }

    /** Drops the group unless another client serves it; returns how many tasks were assigned to it. */
    method RemoveGroupState(group: GroupId, client: Option<ClientId>) returns (removed: nat)
      modifies this
      ensures View() == RemoveState(old(View()), group, client)
      ensures removed == |old(taskGroupMap)| - |taskGroupMap|
    {
      if client.Some? && group in groupClients && groupClients[group] != client.value {
        return 0;
      }
      groupClients := groupClients - {group};
      clientOrder := Without(clientOrder, group);
      log := log + [Dropped(group)];
      var toRemove := AssignedTasks(group);
      assert toRemove == TasksOf(old(View()), group);
      MapSizeAfter(taskGroupMap, toRemove);
      removed := |toRemove|;
      Unassign(toRemove);
    }

    static lemma MapSizeAfter(all: map<TaskId, GroupId>, gone: set<TaskId>)
      requires gone <= all.Keys
      ensures |all - gone| == |all| - |gone|
    {
      assert (all - gone).Keys == all.Keys - gone;
      assert |(all - gone).Keys| == |all.Keys| - |gone|;
    }

    method OnGroupClientDisconnected(client: ClientId, group: GroupId)
      modifies this
      ensures View() == Step(old(View()), Disconnects(group, client))
    {
      if group == "" {
        return;
      }
      var _ := RemoveGroupState(group, Some(client));
    }

    method Suspend(op: Op)
      modifies `ops, `next
      ensures View() == GroupBook.Suspend(old(View()), op)
    {
      ops := ops[next := op];
      next := next + 1;
    }

    method StartJoin(group: GroupId)
      modifies `ops, `next
      ensures View() == GroupBook.StartJoin(old(View()), group)
    {
      Suspend(Joining(group, next));
    }

    /** An invitation or a join request, up to its first suspension. */
    method Enter(group: GroupId, peers: Peers)
      modifies `ops, `next
      ensures View() == Step(old(View()), GroupBook.Enter(group, peers))
    {
      if group in groupClients {
        if groupClients[group] in peers.joined {
          return;
        }
        Suspend(Discarding(group, groupClients[group]));
      } else {
        StartJoin(group);
      }
    }

    /** The stale client is closed, or failed to close; a new one starts to join. */
    method ResumeDiscard(k: nat)
      requires Possible(View(), DiscardEnds(k))
      modifies this
      ensures View() == Step(old(View()), DiscardEnds(k))
    {
      var op := ops[k];
      ops := ops - {k};
      var _ := RemoveGroupState(op.group, Some(op.client));
      StartJoin(op.group);
    }

    method ResumeJoin(k: nat, ok: bool)
      requires Possible(View(), JoinEnds(k, ok))
      modifies this
      ensures View() == Step(old(View()), JoinEnds(k, ok))
    {
      var op := ops[k];
      ops := ops - {k};
      if ok {
        if op.group !in groupClients {
          clientOrder := clientOrder + [op.group];
        }
        groupClients := groupClients[op.group := op.client];
      }
    }

    method FindGroupForSender(sender: Aic, peers: Peers) returns (found: Option<GroupId>)
      ensures found == FindForSender(View(), peers, clientOrder, sender)
    {
      var i := 0;
      while i < |clientOrder|
        invariant i <= |clientOrder|
        invariant FindForSender(View(), peers, clientOrder, sender)
               == FindForSender(View(), peers, clientOrder[i..], sender)
      {
        var group := clientOrder[i];
        if group in groupClients {
          var client := groupClients[group];
          if client in peers.joined && client in peers.leaders && peers.leaders[client] == sender {
            return Some(group);
          }
        }
        i := i + 1;
      }
      return None;
    }

    method ResolveGroup(named: Option<GroupId>, sender: Aic, peers: Peers) returns (found: Option<GroupId>)
      ensures found == Resolve(View(), named, sender, peers)
    {
      if named.Some? && named.value != "" && named.value in groupClients && groupClients[named.value] in peers.joined {
        return named;
      }
      if sender == "" {
        return None;
      }
      found := FindGroupForSender(sender, peers);
    }

    /** The assignment a task command makes before the runner handles it. */
    method OnTaskCommand(task: TaskId, named: Option<GroupId>, sender: Aic, mentioned: bool, peers: Peers)
      modifies `taskGroupMap, `log
      ensures View() == if mentioned then Step(old(View()), TaskCommand(task, named, sender, peers)) else old(View())
    {
      if !mentioned {
        return;
      }
      var group := ResolveGroup(named, sender, peers);
      if group.Some? && group.value != "" {
        taskGroupMap := taskGroupMap[task := group.value];
        log := log + [Mapped(task, group.value)];
      }
    }

    method BeginLeave(group: GroupId) returns (known: bool)
      modifies `ops, `next
      ensures known == (group in groupClients)
      ensures View() == Step(old(View()), LeaveBegins(group))
    {
      known := group in groupClients;
      if known {
        Suspend(Leaving(group, groupClients[group]));
      }
    }

    /** A failed leave keeps everything. */
    method ResumeLeave(k: nat, ok: bool)
      requires Possible(View(), LeaveEnds(k, ok))
      modifies this
      ensures View() == Step(old(View()), LeaveEnds(k, ok))
    {
      var op := ops[k];
      ops := ops - {k};
      if ok {
        var _ := RemoveGroupState(op.group, Some(op.client));
      }
    }
  }
}
