/**
 * The hub's job table as a value, and each synchronous segment of lib/fabric.js as a function on it.
 *
 * The asynchronous `schedule()` is cut where it awaits the placement oracle: `Scan` runs up to the next await and
 * leaves the phase `Awaiting`; `Answer` resumes there. Every operation that runs inside `serial` needs phase `Idle`;
 * `Register` does not.
 *
 * `room` is how many journal appends still succeed before one throws JOURNAL_LIMIT; an append is atomic. A value is
 * `plain` when none of its objects has a key that the canonical form refuses; a record that is not is never appended,
 * whatever room there is.
 */
module HubModel {
  import opened Common

  type Uid = nat

  datatype JobState = Queued | Assigned | Unknown | Succeeded | Failed | Abandoned

  datatype Reason =
    | NoReason
    | HubRestart
    | AgentDisconnected
    | DeadlineExpired
    | TransportOutcomeUnknown
    | ExecutorUncertain
    | OperatorAbandoned
    | NoConnectedMatchingAgent
    | SchedulerUnavailable
    | PlacementRefused(code: Name)

  datatype Target = Auto | NodeTarget(id: Name) | SiteTarget(site: Name)

  /** What an executor reports: a final state, the text of its result, and whether the result is plain. */
  datatype Outcome = Outcome(state: JobState, result: Name, plain: bool)

  /** Who asked, under which request key. */
  datatype Requester = Requester(tenant: Name, sub: Name, key: Name)

  datatype Work = Work(target: Target, op: Name, data: Name, plain: bool)

  datatype Job = Job(
    id: Uid, who: Requester, work: Work,
    state: JobState, node: Option<Name>, lease: Option<Uid>, deadline: int,
    result: Option<Name>, reason: Reason)

  /** `conn` names the connection object, so it tells apart two registrations of one node. */
  datatype Peer = Peer(conn: nat, id: Name, tenant: Name, site: Name, operations: set<Name>, seen: int)

  datatype Phase =
    | Idle
    | Awaiting(at: nat, asked: map<Name, nat>, free: set<Name>)

  datatype Hub = Hub(
    journal: seq<Job>, jobs: map<Uid, Job>, order: seq<Uid>, peers: map<Name, Peer>, phase: Phase)

  datatype Refusal =
    | Forbidden
    | NotFound
    | OnlyUnknownOrQueued
    | IdempotencyConflict
    | JobRetentionLimit
    | JournalLimit
    | DuplicateAgent
    | CapabilityEscalation
    | ForeignOrStaleReceipt
    | BadResultState
    | ResultEquivocation
    | BadObjectKey

  datatype Reply = Accepted(job: Uid) | Refused(why: Refusal)

  datatype Placement = Unavailable | Declined(code: Name) | Placed(node: Name)

  datatype Receipt = Receipt(id: Uid, lease: Uid, outcome: Outcome)

  datatype Ack = Ack(id: Uid, lease: Uid, state: JobState)

  /** A state, and whether the operation ran to its end (false: an append threw). */
  datatype Ran = Ran(hub: Hub, ok: bool)

  const JOB_RETENTION: nat := 1000
  const STALE_MS: int := 15000
  const LEASE_MS: int := 30000

  const EMPTY := Hub([], map[], [], map[], Idle)

  predicate Final(s: JobState) { s in {Succeeded, Failed, Abandoned} }

  predicate Busy(j: Job) { j.state == Assigned || j.state == Unknown }

  // ------------------------------------------------------------------ journal and job table

  function Record(h: Hub, j: Job): Hub {
    h.(journal := h.journal + [j],
       jobs := h.jobs[j.id := j],
       order := if j.id in h.jobs then h.order else h.order + [j.id])
  }

  /** The constructor's replay loop. */
  function Replay(log: seq<Job>): (h: Hub)
    ensures h.journal == log && h.peers == map[] && h.phase == Idle
  {
    if |log| == 0 then EMPTY else
      assert log[..|log| - 1] + [log[|log| - 1]] == log;
      Record(Replay(log[..|log| - 1]), log[|log| - 1])
  }

  /** Which ASSIGNED jobs a loop over the table moves to UNKNOWN. */
  datatype Loss = ByRestart | ByDisconnect(node: Name) | ByDeadline(now: int)

  predicate Hit(w: Loss, j: Job) {
    && j.state == Assigned
    && match w
       case ByRestart => true
       case ByDisconnect(node) => j.node == Some(node)
       case ByDeadline(now) => j.deadline < now
  }

  function Lost(w: Loss, j: Job): Job {
    j.(state := Unknown,
       reason := match w
                 case ByRestart => HubRestart
                 case ByDisconnect(_) => AgentDisconnected
                 case ByDeadline(_) => DeadlineExpired)
  }

  /** Every listed id has its job, stored under its own id. */
  ghost predicate Keyed(h: Hub) {
    forall k :: 0 <= k < |h.order| ==> h.order[k] in h.jobs && h.jobs[h.order[k]].id == h.order[k]
  }

  /** The three loops that record UNKNOWN for lost assignments, from index `i` of the table on. */
  function Sweep(h: Hub, i: nat, w: Loss, room: nat): (r: Ran)
    requires Keyed(h)
    ensures r.hub.order == h.order && r.hub.peers == h.peers && r.hub.phase == h.phase && Keyed(r.hub)
    decreases |h.order| - i
  {
    if i >= |h.order| then Ran(h, true) else
      var j := h.jobs[h.order[i]];
      if !Hit(w, j) then Sweep(h, i + 1, w, room)
      else if room == 0 then Ran(h, false)
      else Sweep(Record(h, Lost(w, j)), i + 1, w, room - 1)
  }

  /** `new Fabric(...)`: replay, then every ASSIGNED job becomes UNKNOWN; nothing is resubmitted. */
  function Restart(log: seq<Job>, room: nat): Ran {
    KeyedReplay(log);
    Sweep(Replay(log), 0, ByRestart, room)
  }

  // ------------------------------------------------------------------ scheduling

  predicate Matches(j: Job, p: Peer) {
    && p.tenant == j.who.tenant
    && match j.work.target
       case Auto => true
       case NodeTarget(id) => id == p.id
       case SiteTarget(site) => site == p.site
  }

  predicate Occupied(h: Hub, node: Name) {
    exists x :: x in h.jobs && h.jobs[x].node == Some(node) && Busy(h.jobs[x])
  }

  function Candidates(h: Hub, j: Job): map<Name, nat> {
    map n | n in h.peers && Matches(j, h.peers[n]) :: h.peers[n].conn
  }

  function FreeNodes(h: Hub, asked: map<Name, nat>): set<Name> {
    set n | n in asked && !Occupied(h, n)
  }

  /** `job.reason = ...`: changed in place, never journaled. */
  function Annotate(h: Hub, x: Uid, why: Reason): Hub
    requires x in h.jobs
  {
    h.(jobs := h.jobs[x := h.jobs[x].(reason := why)])
  }

  /** The schedule loop from index `i` up to its next await. */
  function Scan(h: Hub, i: nat): (h': Hub)
    requires Keyed(h)
    ensures h'.order == h.order && h'.peers == h.peers && h'.journal == h.journal && Keyed(h')
    decreases |h.order| - i
  {
    if i >= |h.order| then h.(phase := Idle) else
      var j := h.jobs[h.order[i]];
      if j.state != Queued then Scan(h, i + 1)
      else
        var asked := Candidates(h, j);
        if asked == map[] then Scan(Annotate(h, j.id, NoConnectedMatchingAgent), i + 1)
        else h.(phase := Awaiting(i, asked, FreeNodes(h, asked)))
  }

  /** The recheck after the asynchronous decision. */
  predicate Commits(h: Hub, j: Job, asked: map<Name, nat>, node: Name, now: int) {
    && node in h.peers
    && node in asked
    && h.peers[node].conn == asked[node]
    && now - h.peers[node].seen <= STALE_MS
    && j.work.op in h.peers[node].operations
    && h.peers[node].tenant == j.who.tenant
    && j.state == Queued
  }

  /** Whether an answer gets as far as sending the execute message: only after its assignment is journaled. */
  predicate Dispatches(h: Hub, p: Placement, now: int, room: nat)
    requires Keyed(h) && h.phase.Awaiting? && h.phase.at < |h.order|
  {
    p.Placed? && Commits(h, h.jobs[h.order[h.phase.at]], h.phase.asked, p.node, now) && room > 0
  }

  function Award(j: Job, node: Name, lease: Uid, now: int): Job {
    j.(state := Assigned, node := Some(node), lease := Some(lease), deadline := now + LEASE_MS, reason := NoReason)
  }

  /** The oracle answered: commit or skip, then go on with the next job. `sent` is what `peer.send` returned. */
  function Answer(h: Hub, p: Placement, now: int, lease: Uid, sent: bool, room: nat): (r: Ran)
    requires Keyed(h) && h.phase.Awaiting? && h.phase.at < |h.order|
    ensures r.hub.order == h.order && r.hub.peers == h.peers
  {
    var j := h.jobs[h.order[h.phase.at]];
    var next := h.phase.at + 1;
    match p
    case Unavailable => Ran(Scan(Annotate(h, j.id, SchedulerUnavailable), next), true)
    case Declined(code) => Ran(Scan(Annotate(h, j.id, PlacementRefused(code)), next), true)
    case Placed(node) =>
      if !Commits(h, j, h.phase.asked, node, now) then Ran(Scan(h, next), true)
      else if room == 0 then Ran(h.(phase := Idle), false)
      else
        var a := Award(j, node, lease, now);
        var h1 := Record(h, a);
        if sent then Ran(Scan(h1, next), true)
        else if room == 1 then Ran(h1.(phase := Idle), false)
        else Ran(Scan(Record(h1, a.(state := Unknown, reason := TransportOutcomeUnknown)), next), true)
  }

  // ------------------------------------------------------------------ commands

  function FindKey(h: Hub, i: nat, who: Requester): (r: Option<Uid>)
    requires Keyed(h)
    ensures r.Some? ==> r.value in h.jobs && h.jobs[r.value].who == who
    ensures r.None? ==> forall k :: i <= k < |h.order| ==> h.order[k] in h.jobs && h.jobs[h.order[k]].who != who
    decreases |h.order| - i
  {
    if i >= |h.order| then None
    else if h.jobs[h.order[i]].who == who then Some(h.order[i])
    else FindKey(h, i + 1, who)
  }

  function NewJob(id: Uid, who: Requester, work: Work): Job {
    Job(id, who, work, Queued, None, None, 0, None, NoReason)
  }

  /** `submit` and `run` after their syntax checks; `id` is the fresh job id. */
  function Submit(h: Hub, capable: bool, who: Requester, work: Work, id: Uid, room: nat): (Hub, Reply)
    requires Keyed(h)
  {
    if !capable then (h, Refused(Forbidden))
    else
      var prior := FindKey(h, 0, who);
      if prior.Some? then
        if !work.plain then (h, Refused(BadObjectKey))
        else if h.jobs[prior.value].work != work then (h, Refused(IdempotencyConflict))
        else (h, Accepted(prior.value))
      else if |h.jobs| >= JOB_RETENTION then (h, Refused(JobRetentionLimit))
      else if !work.plain then (h, Refused(BadObjectKey))
      else if room == 0 then (h, Refused(JournalLimit))
      else (Scan(Record(h, NewJob(id, who, work)), 0), Accepted(id))
  }

  function Abandon(h: Hub, capable: bool, tenant: Name, id: Uid, room: nat): (Hub, Reply) {
    if !capable then (h, Refused(Forbidden))
    else if id !in h.jobs || h.jobs[id].who.tenant != tenant then (h, Refused(NotFound))
    else if h.jobs[id].state !in {Unknown, Queued} then (h, Refused(OnlyUnknownOrQueued))
    else if room == 0 then (h, Refused(JournalLimit))
    else (Record(h, h.jobs[id].(state := Abandoned, reason := OperatorAbandoned)), Accepted(id))
  }

  // ------------------------------------------------------------------ agents

  function Register(h: Hub, p: Peer, granted: set<Name>): Result<Hub, Refusal> {
    if p.id in h.peers then Err(DuplicateAgent)
    else if !(p.operations <= granted) || |p.operations| > 16 then Err(CapabilityEscalation)
    else Ok(h.(peers := h.peers[p.id := p]))
  }

  function Disconnect(h: Hub, id: Name, conn: nat, room: nat): Ran
    requires Keyed(h)
  {
    if id !in h.peers || h.peers[id].conn != conn then Ran(h, true)
    else Sweep(h.(peers := h.peers - {id}), 0, ByDisconnect(id), room)
  }

  /** A receipt from the connection registered as (`node`, `tenant`). */
  function TakeReceipt(h: Hub, node: Name, tenant: Name, r: Receipt, room: nat): (Hub, Result<Ack, Refusal>)
    requires Keyed(h)
  {
    if r.id !in h.jobs then (h, Err(ForeignOrStaleReceipt))
    else
      var j := h.jobs[r.id];
      if j.node != Some(node) || j.who.tenant != tenant || j.lease != Some(r.lease) then
        (h, Err(ForeignOrStaleReceipt))
      else if r.outcome.state !in {Succeeded, Failed, Unknown} then (h, Err(BadResultState))
      else if j.state == Abandoned then (h, Ok(Ack(j.id, r.lease, Abandoned)))
      else if Final(j.state) then
        if j.state != r.outcome.state then (h, Err(ResultEquivocation))
        else if !r.outcome.plain then (h, Err(BadObjectKey))
        else if j.result != Some(r.outcome.result) then (h, Err(ResultEquivocation))
        else (Scan(h, 0), Ok(Ack(j.id, r.lease, j.state)))
      else if !r.outcome.plain then (h, Err(BadObjectKey))
      else if room == 0 then (h, Err(JournalLimit))
      else
        (Scan(Record(h, Settle(j, r.outcome)), 0), Ok(Ack(j.id, r.lease, r.outcome.state)))
  }

  function Settle(j: Job, o: Outcome): Job {
    j.(state := o.state, result := Some(o.result),
       reason := if o.state == Unknown then ExecutorUncertain else NoReason)
  }

  function Tick(h: Hub, now: int, room: nat): Ran
    requires Keyed(h)
  {
    var r := Sweep(h, 0, ByDeadline(now), room);
    if r.ok then Ran(Scan(r.hub, 0), true) else r
  }

  lemma KeyedReplay(log: seq<Job>)
    ensures Keyed(Replay(log))
  {
    if |log| > 0 {
      KeyedReplay(log[..|log| - 1]);
    }
  }
}
