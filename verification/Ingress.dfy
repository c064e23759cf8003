/** Idempotent acceptance of tasks: four inserts and three checks in one transaction. */
module Ingress {
  import opened Wrappers

  datatype Policy = Policy(configHash: nat, matcherVersion: string, payload: string)

  datatype TaskRow = TaskRow(kind: string, instance: string, policyId: nat)

  datatype OutboxRow = OutboxRow(taskId: nat, name: string, version: string, instance: string, input: string)

  datatype NewTask = NewTask(id: nat, key: nat, kind: string, policyId: nat, policy: Policy,
                             name: string, version: string, instance: string, input: string)

  datatype Store = Store(policies: map<nat, Policy>, tasks: map<nat, TaskRow>, queued: set<nat>, outbox: map<nat, OutboxRow>)

  datatype IngressError = PolicyIdentityCollision | TaskIdentityCollision | TaskKeyCollision | OutboxIdentityCollision | InstanceTaken

  function TaskRowOf(t: NewTask): TaskRow {
    TaskRow(t.kind, t.instance, t.policyId)
  }

  function OutboxRowOf(t: NewTask): OutboxRow {
    OutboxRow(t.id, t.name, t.version, t.instance, t.input)
  }

  /** A table can take a row: the key is free, or holds just that row. */
  predicate Takes<V(==)>(table: map<nat, V>, key: nat, row: V) {
    key !in table || table[key] == row
  }

  /** No row starts the instance yet; the outbox admits one row for each. */
  predicate InstanceFree(outbox: map<nat, OutboxRow>, instance: string) {
    forall k :: k in outbox ==> outbox[k].instance != instance
  }

  /** The outbox can take a row: it holds just that row under its key, or neither its key nor its
      instance. */
  predicate OutboxTakes(outbox: map<nat, OutboxRow>, key: nat, row: OutboxRow) {
    if key in outbox then outbox[key] == row else InstanceFree(outbox, row.instance)
  }

  /** A store that holds nothing else under the identities of a task. */
  predicate Compatible(s: Store, t: NewTask) {
    Takes(s.policies, t.policyId, t.policy) && Takes(s.tasks, t.id, TaskRowOf(t)) && OutboxTakes(s.outbox, t.key, OutboxRowOf(t))
  }

  function With(s: Store, t: NewTask): Store {
    Store(s.policies[t.policyId := t.policy], s.tasks[t.id := TaskRowOf(t)], s.queued + {t.id}, s.outbox[t.key := OutboxRowOf(t)])
  }

  /** Why a task is refused: the first table that disagrees. */
  function Refusal(s: Store, t: NewTask): IngressError {
    if !Takes(s.policies, t.policyId, t.policy) then PolicyIdentityCollision
    else if !Takes(s.tasks, t.id, TaskRowOf(t)) then TaskIdentityCollision
    else if t.key !in s.outbox then InstanceTaken
    else if s.outbox[t.key].taskId != t.id then TaskKeyCollision
    else OutboxIdentityCollision
  }

  /** Acceptance as a function of the store: the store it leaves, and whether what was accepted is new. */
  function Accept(s: Store, t: NewTask): Result<(Store, bool), IngressError> {
    if Compatible(s, t) then Success((With(s, t), t.key !in s.outbox)) else Failure(Refusal(s, t))
  }

  function InsertIfFree<V>(table: map<nat, V>, key: nat, row: V): map<nat, V> {
    if key in table then table else table[key := row]
  }

  class Database {
    var store: Store

    /** Accepts a task as a whole or refuses it without a trace. It is new exactly when its key was. */
    method AcceptTask(t: NewTask) returns (r: Result<bool, IngressError>)
      modifies this
      ensures match Accept(old(store), t) {
        case Success((accepted, isNew)) => r == Success(isNew) && store == accepted
        case Failure(error) => r == Failure(error) && store == old(store)
      }
    {
      var s := store;
      s := s.(policies := InsertIfFree(s.policies, t.policyId, t.policy));
      if s.policies[t.policyId] != t.policy {
        return Failure(PolicyIdentityCollision);
      }
      s := s.(tasks := InsertIfFree(s.tasks, t.id, TaskRowOf(t)));
      var task := s.tasks[t.id];
      if !(task.kind == t.kind && task.instance == t.instance && task.policyId == t.policyId) {
        return Failure(TaskIdentityCollision);
      }
      s := s.(queued := s.queued + {t.id});
      var inserted := t.key !in s.outbox;
      if inserted && !InstanceFree(s.outbox, t.instance) {
        return Failure(InstanceTaken);
      }
      s := s.(outbox := InsertIfFree(s.outbox, t.key, OutboxRowOf(t)));
      var row := s.outbox[t.key];
      if row.taskId != t.id {
        return Failure(TaskKeyCollision);
      }
      if !(row.name == t.name && row.version == t.version && row.instance == t.instance && row.input == t.input) {
        return Failure(OutboxIdentityCollision);
      }
      assert s == With(store, t);
      store := s;
      return Success(inserted);
    }
  }

  /** Rows that are there stay as they are. */
  predicate Extends(s: Store, s': Store) {
    && (forall k :: k in s.policies ==> k in s'.policies && s'.policies[k] == s.policies[k])
    && (forall k :: k in s.tasks ==> k in s'.tasks && s'.tasks[k] == s.tasks[k])
    && s.queued <= s'.queued
    && (forall k :: k in s.outbox ==> k in s'.outbox && s'.outbox[k] == s.outbox[k])
  }

  /** The store after a list of requests, those that are refused leaving no trace. */
  function Served(s: Store, requests: seq<NewTask>): Store {
    if requests == [] then s
    else
      var before := Served(s, requests[..|requests| - 1]);
      var t := requests[|requests| - 1];
      if Compatible(before, t) then With(before, t) else before
  }

  lemma {:induction false} ServedExtends(s: Store, requests: seq<NewTask>)
    ensures Extends(s, Served(s, requests))
  {
    if requests != [] {
      ServedExtends(s, requests[..|requests| - 1]);
    }
  }

  /** Every instance is started by one row. */
  ghost predicate OneRowEach(s: Store) {
    forall j, k :: j in s.outbox && k in s.outbox && s.outbox[j].instance == s.outbox[k].instance ==> j == k
  }

  /** Whatever is requested, no instance is ever asked for by two rows. */
  lemma {:induction false} ServedOnce(s: Store, requests: seq<NewTask>)
    requires OneRowEach(s)
    ensures OneRowEach(Served(s, requests))
  {
    if requests != [] {
      ServedOnce(s, requests[..|requests| - 1]);
    }
  }

  /** What an accepted task leaves: its policy, its task and its outbox row, each with the fields of the request, queued,
      and everything else as it was. */
  lemma AcceptedIsStored(s: Store, t: NewTask, s': Store, isNew: bool)
    requires Accept(s, t) == Success((s', isNew))
    ensures t.policyId in s'.policies && s'.policies[t.policyId] == t.policy && t.id in s'.queued && t.id in s'.tasks && t.key in s'.outbox
    ensures var task := s'.tasks[t.id]; task.kind == t.kind && task.instance == t.instance && task.policyId == t.policyId
    ensures var row := s'.outbox[t.key];
      row.taskId == t.id && row.name == t.name && row.version == t.version && row.instance == t.instance && row.input == t.input
    ensures Extends(s, s') && (isNew <==> t.key !in s.outbox)
    ensures forall k :: k in s'.outbox && k != t.key ==> k in s.outbox
    ensures forall k :: k in s'.tasks && k != t.id ==> k in s.tasks
  {
  }

  /** A task is refused exactly when some table holds something else: in order, another policy under its identity,
      another task, no row under its key but its instance taken, or another row under its key. */
  lemma RefusedWhenHeld(s: Store, t: NewTask)
    ensures var policyHeld := t.policyId in s.policies && s.policies[t.policyId] != t.policy;
      var taskHeld := t.id in s.tasks && !(s.tasks[t.id].kind == t.kind && s.tasks[t.id].instance == t.instance && s.tasks[t.id].policyId == t.policyId);
      var instanceHeld := t.key !in s.outbox && exists k :: k in s.outbox && s.outbox[k].instance == t.instance;
      var keyHeld := t.key in s.outbox && s.outbox[t.key].taskId != t.id;
      var rowHeld := t.key in s.outbox && !(s.outbox[t.key].name == t.name && s.outbox[t.key].version == t.version
                                            && s.outbox[t.key].instance == t.instance && s.outbox[t.key].input == t.input);
      && (Accept(s, t).Success? <==> !policyHeld && !taskHeld && !instanceHeld && !keyHeld && !rowHeld)
      && (Accept(s, t).Failure? ==>
            Accept(s, t).error == if policyHeld then PolicyIdentityCollision else if taskHeld then TaskIdentityCollision
                                  else if instanceHeld then InstanceTaken else if keyHeld then TaskKeyCollision else OutboxIdentityCollision)
  {
  }

  /** Once a task is accepted, repeating it after any other requests is a duplicate that changes
      nothing. */
  lemma ReplayChangesNothing(s: Store, t: NewTask, requests: seq<NewTask>)
    requires Compatible(s, t)
    ensures var later := Served(With(s, t), requests);
      Compatible(later, t) && With(later, t) == later && t.key in later.outbox
  {
    ServedExtends(With(s, t), requests);
    hide Served;
    HoldsAlready(Served(With(s, t), requests), t);
  }

  lemma HoldsAlready(s: Store, t: NewTask)
    requires t.policyId in s.policies && s.policies[t.policyId] == t.policy && t.id in s.tasks && s.tasks[t.id] == TaskRowOf(t)
    requires t.id in s.queued && t.key in s.outbox && s.outbox[t.key] == OutboxRowOf(t)
    ensures Compatible(s, t) && With(s, t) == s
  {
    hide TaskRowOf, OutboxRowOf;
    assert s.queued + {t.id} == s.queued;
    assert s.policies[t.policyId := t.policy] == s.policies;
    assert s.tasks[t.id := TaskRowOf(t)] == s.tasks;
    assert s.outbox[t.key := OutboxRowOf(t)] == s.outbox;
  }
}
