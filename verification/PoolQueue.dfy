/**
 The pool's queue is the linked list: adding and removing under the mutex, on the pointers.
 */
module PoolQueue {
  import opened ConnectionList
  import opened WorkerPool
  import PoolShutdown

  /** The list is what the transition system calls the queue of `s`. */
  ghost predicate Shows(list: ConList, s: State)
    reads list, list.spine
  {
    list.Valid() && list.Contents() == s.queue
  }

  /** `addTail` by the main thread, after the lock. */
  method QueueWork(list: ConList, conn: int, action: Instruction, ghost s: State)
    requires Shows(list, s) && s.handler == Off && s.main == Adding(Entry(conn, action))
    modifies list, list.Nodes()
    ensures Shows(list, MainStep(s))
  {
    list.AddTail(conn, action);
  }

  /** `addTail` by the interrupt handler. */
  method QueueStop(list: ConList, ghost s: State)
    requires Shows(list, s) && s.handler.HandlerAdding?
    modifies list, list.Nodes()
    ensures Shows(list, MainStep(s))
  {
    list.AddTail(0, Terminate);
  }

  /** `isEmpty` by a worker: it goes to sleep exactly when the list is empty. */
  method IsIdle(list: ConList, ghost s: State, ghost i: nat) returns (empty: bool)
    requires Shows(list, s) && i < |s.workers| && s.workers[i] == Checking
    ensures WorkerStep(s, i).workers[i] == if empty then Asleep else Removing
    ensures Shows(list, WorkerStep(s, i))
  {
    empty := list.IsEmpty();
  }

  /** `removeHead` by a worker, in any state of any run: never NULL, and the token that it takes. */
  method TakeWork(list: ConList, ghost n: nat, ghost states: seq<State>, ghost actions: seq<Action>,
                  ghost k: nat, ghost i: nat)
    returns (c: Connection?)
    requires IsRun(n, states, actions) && k < |states| && i < |states[k].workers| && states[k].workers[i] == Removing
    requires Shows(list, states[k])
    modifies list
    ensures c != null && WorkerStep(states[k], i).taken == states[k].taken + [(i, c.entry)]
    ensures Shows(list, WorkerStep(states[k], i))
    ensures WorkerStep(states[k], i).workers[i] == Unlocking(c.entry)
  {
    PoolShutdown.RunKeepsAccount(n, states, actions, k);
    c := list.RemoveHead();
  }
}
