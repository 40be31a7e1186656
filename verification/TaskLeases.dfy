/** A worker that renews its lease at the heartbeat interval keeps its task. */
module TaskLeases {
  import opened Wrappers
  import opened Tasks
  import opened TaskHistory

  /** The pause between two renewals in `_heartbeat_loop`. */
  function HeartbeatInterval(heartbeatSeconds: nat, leaseSeconds: nat): (interval: nat)
    ensures leaseSeconds >= 2 ==> interval <= leaseSeconds
    ensures interval <= heartbeatSeconds && (interval < heartbeatSeconds ==> interval >= 2 && 2 * interval >= leaseSeconds - 1)
  {
    var half := leaseSeconds / 2;
    var bound := if half < 2 then 2 else half;
    if heartbeatSeconds < bound then heartbeatSeconds else bound
  }

  /**
   * Events that change nothing in the row of task `id` while `worker` runs it, or only sweep it.
   * The heartbeats of other workers for it are among them: their guard does not hold.
   */
  predicate Foreign(e: Event, id: nat, worker: string) {
    match e
    case WorkerWrite(_, other, w) => other != id || w == Progress
    case Cancel(other, running) => other != id || running
    case Retry(other, _) => other != id
    case Renew(other, who, _, _) => other != id || who != worker
    case _ => true
  }

  /**
   * The events after a renewal at time `last`: each sweep comes at most `interval` seconds after
   * the latest renewal, and nobody else writes to the task; others may still send heartbeats for it.
   */
  predicate Renewed(es: seq<Event>, id: nat, worker: string, lease: nat, interval: nat, last: nat) {
    es == [] ||
    if es[0].Renew? && es[0].id == id && es[0].worker == worker then
      es[0].lease == lease && Renewed(es[1..], id, worker, lease, interval, es[0].now)
    else
      && Foreign(es[0], id, worker) && (es[0].Sweep? ==> es[0].now <= last + interval)
      && Renewed(es[1..], id, worker, lease, interval, last)
  }

  /** The time of the worker's latest renewal. */
  function LastRenewal(es: seq<Event>, id: nat, worker: string, last: nat): nat {
    if es == [] then last
    else LastRenewal(es[1..], id, worker, if es[0].Renew? && es[0].id == id && es[0].worker == worker then es[0].now else last)
  }

  ghost predicate Holds(s: System, id: nat, worker: string, expires: nat) {
    && id in s.db.tasks && s.db.tasks[id].status == Running
    && s.db.tasks[id].leaseOwner == Some(worker) && s.db.tasks[id].leaseExpires == Some(expires)
  }

  lemma ForeignKeepsLease(s: System, e: Event, id: nat, worker: string, expires: nat)
    requires Holds(s, id, worker, expires) && Foreign(e, id, worker) && (e.Sweep? ==> e.now <= expires)
    ensures Holds(Step(s, e), id, worker, expires)
  {
  }

  /** From any state: the sweep never takes the task away, and the lease ends `lease` seconds after the latest renewal. */
  lemma {:induction false} RenewalKeepsTask(s: System, es: seq<Event>, id: nat, worker: string, lease: nat, interval: nat, last: nat)
    requires Holds(s, id, worker, last + lease) && interval <= lease
    requires Renewed(es, id, worker, lease, interval, last)
    ensures Holds(Steps(s, es), id, worker, LastRenewal(es, id, worker, last) + lease)
    decreases |es|
  {
    if es == [] {
    } else if es[0].Renew? && es[0].id == id && es[0].worker == worker {
      RenewalKeepsTask(Step(s, es[0]), es[1..], id, worker, lease, interval, es[0].now);
    } else {
      ForeignKeepsLease(s, es[0], id, worker, last + lease);
      RenewalKeepsTask(Step(s, es[0]), es[1..], id, worker, lease, interval, last);
    }
  }

  function Steps(s: System, es: seq<Event>): System
    decreases |es|
  {
    if es == [] then s else Steps(Step(s, es[0]), es[1..])
  }

  lemma {:induction false} StepsRun(es: seq<Event>, more: seq<Event>)
    ensures Steps(Run(es), more) == Run(es + more)
    decreases |more|
  {
    if more == [] {
      assert es + more == es;
    } else {
      var one := es + [more[0]];
      assert one[..|one| - 1] == es;
      assert one + more[1..] == es + more;
      StepsRun(one, more[1..]);
    }
  }

  /**
   * In any history: after a claim, a worker that renews at the heartbeat interval is never requeued
   * by the sweep, for every lease of at least two seconds.
   */
  lemma WorkerKeepsTask(es: seq<Event>, worker: string, now: nat, lease: nat, id: nat, more: seq<Event>, heartbeatSeconds: nat)
    requires lease >= 2
    requires |Step(Run(es), ClaimNext(worker, now, lease, id)).claims| > |Run(es).claims|
    requires Renewed(more, id, worker, lease, HeartbeatInterval(heartbeatSeconds, lease), now)
    ensures var s := Run(es + [ClaimNext(worker, now, lease, id)] + more);
            id in s.db.tasks && s.db.tasks[id].status == Running && s.db.tasks[id].leaseOwner == Some(worker)
  {
    var claim := ClaimNext(worker, now, lease, id);
    var claimed := es + [claim];
    assert claimed[..|claimed| - 1] == es;
    assert Run(claimed) == Step(Run(es), claim);
    RenewalKeepsTask(Run(claimed), more, id, worker, lease, HeartbeatInterval(heartbeatSeconds, lease), now);
    StepsRun(claimed, more);
  }
}
