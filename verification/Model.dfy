/** Tasks, journal records and the two ways they change: the values every other module speaks of. */
module Model {

  newtype Byte = b: int | 0 <= b < 256

  datatype Option<+T> = None | Some(value: T)

  datatype State = Pending | Waiting | Sending | Succeeded | Dead {
    predicate Terminal() { Succeeded? || Dead? }

    // Scheduled tasks are the ones the due heap holds.
    predicate Scheduled() { Pending? || Waiting? }
  }

  datatype Target = Target(url: string, verb: string, headers: map<string, string>, body: string,
      bodyEncoding: string) {
    // A succeeded task keeps only the part of its request that carries no credentials.
    function Strip(): (t: Target)
      ensures t.Bare() && t.url == url && t.verb == verb
    {
      Target(url, verb, map[], "", "")
    }

    // Neither headers nor payload.
    predicate Bare() { headers == map[] && body == "" && bodyEncoding == "" }
  }

  // A field of zero means "use the service default".
  datatype Policy = Policy(timeoutMS: int, maxAttempts: int, deadlineMS: int)

  // The part of a task that an enqueue record stores.
  datatype Spec = Spec(id: string, idemKey: string, target: Target, policy: Policy, createdAt: int, keyID: string)

  datatype Task = Task(spec: Spec, state: State, attempts: int, nextAt: int, updatedAt: int, deadReason: string) {
    predicate Live() { !state.Terminal() }

    // What each operation makes of the task.
    function Leased(now: int): Task { this.(state := Sending, updatedAt := now) }

    function Retried(at: int, now: int): Task {
      this.(attempts := attempts + 1, nextAt := at, state := Waiting, updatedAt := now)
    }

    // A delivered task gives up its credentials at once.
    function Delivered(now: int): Task {
      this.(attempts := attempts + 1, state := Succeeded, updatedAt := now,
          spec := spec.(target := spec.target.Strip()))
    }

    function Buried(why: string, now: int): Task {
      this.(attempts := attempts + 1, deadReason := why, state := Dead, updatedAt := now)
    }

    // A revived task starts over, deadline included.
    function Revived(now: int): Task { Task(spec.(createdAt := now), Pending, 0, now, now, "") }

    function Deferred(at: int): Task { this.(state := Pending, nextAt := at) }
  }

  // A tag that is none of the journal's own.
  type ForeignTag = tag: string | tag !in {"enq", "att", "ok", "dead"} witness ""

  datatype Kind = RecEnqueue | RecAttempt | RecDone | RecDead | RecUnknown(tag: ForeignTag)

  // One journal line. As in the source, all kinds share one record; only an enqueue carries a task.
  datatype Record = Record(kind: Kind, id: string, ts: int, task: Option<Spec>, n: int, nextAt: int, why: string) {
    predicate Terminal() { kind.RecDone? || kind.RecDead? }

    // Replay refuses a journal holding an enqueue record without a task.
    predicate Acceptable() { kind.RecEnqueue? ==> task.Some? }
  }

  function Enqueue(spec: Spec, ts: int): Record {
    Record(RecEnqueue, spec.id, ts, Some(spec), 0, 0, "")
  }

  function Attempt(id: string, n: int, nextAt: int, ts: int): Record {
    Record(RecAttempt, id, ts, None, n, nextAt, "")
  }

  function Done(id: string, n: int, ts: int): Record {
    Record(RecDone, id, ts, None, n, 0, "")
  }

  function Buried(id: string, n: int, why: string, ts: int): Record {
    Record(RecDead, id, ts, None, n, 0, why)
  }

  // The task Submit puts in memory, and the one replay makes of an enqueue record (which differ in updatedAt only).
  function Fresh(spec: Spec, updatedAt: int): Task {
    Task(spec, Pending, 0, spec.createdAt, updatedAt, "")
  }

  function LiveIds(tasks: map<string, Task>): set<string> {
    set id | id in tasks && tasks[id].Live()
  }

  function ScheduledIds(tasks: map<string, Task>): set<string> {
    set id | id in tasks && tasks[id].state.Scheduled()
  }
}
