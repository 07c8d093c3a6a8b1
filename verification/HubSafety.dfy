/** What every operation of the hub keeps: its table, its journal, and the progress of each job. */
module HubSafety {
  // One busy job per node, one job per requester and key, a journal that replays to the live table, and progress along
  // the documented edges only.

  import opened Common
  import opened HubModel

  // ------------------------------------------------------------------ invariants

  ghost predicate WellFormed(j: Job) {
    && (j.state == Queued ==> j.node.None? && j.result.None?)
    && (j.state in {Assigned, Unknown, Succeeded, Failed} ==> j.node.Some?)
    && (j.state == Assigned ==> j.result.None?)
    && (j.state in {Succeeded, Failed} ==> j.result.Some?)
    && (j.node.Some? <==> j.lease.Some?)
  }

  /** README: "single-slot placement" and "idempotent submission keys". */
  ghost predicate Apart(h: Hub, x: Uid, y: Uid) {
    x in h.jobs && y in h.jobs && x != y ==>
      && h.jobs[x].who != h.jobs[y].who
      && (Busy(h.jobs[x]) && Busy(h.jobs[y]) ==> h.jobs[x].node != h.jobs[y].node)
  }

  ghost predicate Sound(h: Hub, x: Uid) {
    x in h.jobs ==> x in h.order && WellFormed(h.jobs[x])
  }

  ghost predicate TableInv(h: Hub) {
    && Keyed(h)
    && (forall i, j :: 0 <= i < j < |h.order| ==> h.order[i] != h.order[j])
    && (forall x :: Sound(h, x))
    && (forall x, y :: Apart(h, x, y))
  }

  /** A job as the journal holds it: the reason of a queued job is not journaled. */
  function Durable(j: Job): Job { if j.state == Queued then j.(reason := NoReason) else j }

  ghost predicate Replayed(r: Hub, h: Hub, x: Uid) {
    && (x in r.jobs <==> x in h.jobs)
    && (x in h.jobs ==> r.jobs[x] == Durable(h.jobs[x]))
  }

  ghost predicate Journaled(h: Hub) {
    && Replay(h.journal).order == h.order
    && forall x :: Replayed(Replay(h.journal), h, x)
  }

  /** The free nodes reported to the oracle are still free when it answers. */
  ghost predicate AskedFresh(h: Hub) {
    h.phase.Awaiting? ==>
      && h.phase.at < |h.order|
      && h.order[h.phase.at] in h.jobs && h.jobs[h.order[h.phase.at]].state == Queued
      && forall n :: n in h.phase.free ==> !Occupied(h, n)
  }

  ghost predicate Inv(h: Hub) { TableInv(h) && Journaled(h) && AskedFresh(h) }

  // ------------------------------------------------------------------ what one operation may change

  ghost predicate SameIdentity(j: Job, k: Job) { j.id == k.id && j.who == k.who && j.work == k.work }

  /** No award and no outcome: at most a new reason while queued, or an assignment that was lost. */
  ghost predicate QuietJob(j: Job, k: Job) {
    || k == j
    || (j.state == Queued && k == j.(reason := k.reason))
    || (j.state == Assigned && k == j.(state := Unknown, reason := k.reason))
  }

  ghost predicate QuietAt(h: Hub, h': Hub, x: Uid) {
    && (x in h'.jobs <==> x in h.jobs)
    && (x in h.jobs ==> QuietJob(h.jobs[x], h'.jobs[x]))
  }

  ghost predicate Quiet(h: Hub, h': Hub) { forall x :: QuietAt(h, h', x) }

  /** Everything but job `x` is quiet. */
  ghost predicate QuietBut(h: Hub, h': Hub, x: Uid) {
    x in h'.jobs && forall y :: y != x ==> QuietAt(h, h', y)
  }

  lemma {:induction false} QuietTrans(h: Hub, h1: Hub, h2: Hub)
    requires Quiet(h, h1) && Quiet(h1, h2)
    ensures Quiet(h, h2)
  {
    forall x ensures QuietAt(h, h2, x) {
      assert QuietAt(h, h1, x) && QuietAt(h1, h2, x);
    }
  }

  lemma {:induction false} QuietButThenQuiet(h: Hub, h1: Hub, h2: Hub, x: Uid)
    requires QuietBut(h, h1, x) && (Quiet(h1, h2) || QuietBut(h1, h2, x))
    ensures QuietBut(h, h2, x)
  {
    forall y | y != x ensures QuietAt(h, h2, y) {
      assert QuietAt(h, h1, y) && QuietAt(h1, h2, y);
    }
    assert Quiet(h1, h2) ==> QuietAt(h1, h2, x);
  }

  lemma {:induction false} QuietKeeps(h: Hub, h': Hub)
    requires TableInv(h) && Quiet(h, h') && h'.order == h.order && Keyed(h')
    ensures TableInv(h')
  {
    forall x ensures Sound(h', x) {
      assert QuietAt(h, h', x) && Sound(h, x);
    }
    forall x, y ensures Apart(h', x, y) {
      assert Apart(h, x, y) && QuietAt(h, h', x) && QuietAt(h, h', y);
    }
  }

  /** A new or changed job keeps the table if its requester is new or its own, and its node is not taken. */
  lemma {:induction false} QuietButKeeps(h: Hub, h': Hub, x: Uid)
    requires TableInv(h) && QuietBut(h, h', x) && Keyed(h') && WellFormed(h'.jobs[x])
    requires h'.order == if x in h.jobs then h.order else h.order + [x]
    requires forall y :: y != x ==> Fits(h, h'.jobs[x], y)
    ensures TableInv(h')
  {
    forall y ensures Sound(h', y) {
      assert Sound(h, y) && (y != x ==> QuietAt(h, h', y));
    }
    assert x !in h.jobs ==> x !in h.order;
    forall a, b ensures Apart(h', a, b) {
      assert Apart(h, a, b);
      assert a != x ==> QuietAt(h, h', a) && Fits(h, h'.jobs[x], a);
      assert b != x ==> QuietAt(h, h', b) && Fits(h, h'.jobs[x], b);
    }
  }

  /** Job `j` may stand in the table beside job `y`. */
  ghost predicate Fits(h: Hub, j: Job, y: Uid) {
    y in h.jobs ==>
      && h.jobs[y].who != j.who
      && (Busy(j) && Busy(h.jobs[y]) ==> h.jobs[y].node != j.node)
  }

  // ------------------------------------------------------------------ the journal replays to the table

  lemma {:induction false} JournalAppend(h: Hub, j: Job)
    requires Journaled(h) && Durable(j) == j
    ensures Journaled(Record(h, j))
  {
    var h' := Record(h, j);
    var r := Replay(h.journal);
    assert h'.journal[..|h.journal|] == h.journal;
    assert Replay(h'.journal) == Record(r, j);
    assert Replayed(r, h, j.id);
    forall x ensures Replayed(Record(r, j), h', x) {
      assert Replayed(r, h, x);
    }
  }

  /** Recording one job: its requester is its own or new, and its node is not taken by another job. */
  lemma {:induction false} RecordKeeps(h: Hub, j: Job)
    requires TableInv(h) && Journaled(h) && WellFormed(j) && Durable(j) == j
    requires forall y :: y != j.id ==> Fits(h, j, y)
    ensures TableInv(Record(h, j)) && Journaled(Record(h, j)) && QuietBut(h, Record(h, j), j.id)
  {
    RecordIsQuietBut(h, j);
    QuietButKeeps(h, Record(h, j), j.id);
    JournalAppend(h, j);
  }

  lemma {:induction false} RecordIsQuietBut(h: Hub, j: Job)
    requires Keyed(h)
    ensures QuietBut(h, Record(h, j), j.id) && Keyed(Record(h, j)) && Record(h, j).jobs[j.id] == j
  {
  }

  /** A transition of a job of the table: the others make room for it as before. */
  lemma {:induction false} TransitionKeeps(h: Hub, j: Job)
    requires TableInv(h) && Journaled(h) && WellFormed(j) && j.state != Queued
    requires j.id in h.jobs && h.jobs[j.id].who == j.who
    requires Busy(j) ==> Busy(h.jobs[j.id]) && h.jobs[j.id].node == j.node
    ensures TableInv(Record(h, j)) && Journaled(Record(h, j)) && QuietBut(h, Record(h, j), j.id)
  {
    forall y | y != j.id ensures Fits(h, j, y) {
      assert Apart(h, j.id, y);
    }
    RecordKeeps(h, j);
  }

  /** A change of fields other than jobs, order and journal. */
  lemma {:induction false} ControlKeeps(h: Hub, h': Hub)
    requires TableInv(h) && Journaled(h) && h'.jobs == h.jobs && h'.order == h.order && h'.journal == h.journal
    ensures TableInv(h') && Journaled(h') && Quiet(h, h')
  {
    QuietKeeps(h, h');
    JournaledControl(h, h');
  }

  lemma {:induction false} JournaledSweep(h: Hub, i: nat, w: Loss, room: nat)
    requires Keyed(h) && Journaled(h)
    ensures Journaled(Sweep(h, i, w, room).hub)
    decreases |h.order| - i
  {
    if i < |h.order| {
      var j := h.jobs[h.order[i]];
      if !Hit(w, j) {
        JournaledSweep(h, i + 1, w, room);
      } else if room > 0 {
        LostKeepsJournal(h, w, j);
        JournaledSweep(Record(h, Lost(w, j)), i + 1, w, room - 1);
      }
    }
  }

  lemma {:induction false} LostKeepsJournal(h: Hub, w: Loss, j: Job)
    requires Keyed(h) && Journaled(h)
    ensures Keyed(Record(h, Lost(w, j))) && Journaled(Record(h, Lost(w, j)))
  {
    JournalAppend(h, Lost(w, j));
  }

  lemma {:induction false} JournaledScan(h: Hub, i: nat)
    requires Keyed(h) && Journaled(h)
    ensures Journaled(Scan(h, i))
    decreases |h.order| - i
  {
    if i < |h.order| {
      var j := h.jobs[h.order[i]];
      if j.state != Queued {
        JournaledScan(h, i + 1);
      } else if Candidates(h, j) == map[] {
        JournaledAnnotate(h, j.id, NoConnectedMatchingAgent);
        JournaledScan(Annotate(h, j.id, NoConnectedMatchingAgent), i + 1);
      } else {
        JournaledControl(h, Scan(h, i));
      }
    } else {
      JournaledControl(h, Scan(h, i));
    }
  }

  lemma {:induction false} JournaledAnnotate(h: Hub, x: Uid, why: Reason)
    requires Journaled(h) && x in h.jobs && h.jobs[x].state == Queued
    ensures Journaled(Annotate(h, x, why))
  {
    forall y ensures Replayed(Replay(h.journal), Annotate(h, x, why), y) {
      assert Replayed(Replay(h.journal), h, y);
    }
  }

  lemma {:induction false} JournaledControl(h: Hub, h': Hub)
    requires Journaled(h) && h'.jobs == h.jobs && h'.order == h.order && h'.journal == h.journal
    ensures Journaled(h')
  {
    forall x ensures Replayed(Replay(h'.journal), h', x) {
      assert Replayed(Replay(h.journal), h, x);
    }
  }

  // ------------------------------------------------------------------ loops

  lemma {:induction false} SweepQuiet(h: Hub, i: nat, w: Loss, room: nat)
    requires Keyed(h)
    ensures Quiet(h, Sweep(h, i, w, room).hub)
    decreases |h.order| - i
  {
    if i < |h.order| {
      var j := h.jobs[h.order[i]];
      if !Hit(w, j) {
        SweepQuiet(h, i + 1, w, room);
      } else if room > 0 {
        var h1 := Record(h, Lost(w, j));
        SweepQuiet(h1, i + 1, w, room - 1);
        QuietTrans(h, h1, Sweep(h1, i + 1, w, room - 1).hub);
      }
    }
  }

  ghost predicate Swept(w: Loss, h: Hub, h': Hub, x: Uid) {
    && x in h.jobs && x in h'.jobs
    && h'.jobs[x] == if Hit(w, h.jobs[x]) then Lost(w, h.jobs[x]) else h.jobs[x]
  }

  /** A sweep that was not cut short by a full journal moved exactly the jobs it aims at. */
  lemma {:induction false} SweepExact(h: Hub, i: nat, w: Loss, room: nat)
    requires Keyed(h) && i <= |h.order|
    requires forall a, b :: 0 <= a < b < |h.order| ==> h.order[a] != h.order[b]
    ensures var r := Sweep(h, i, w, room);
            && (room >= |h.order| - i ==> r.ok)
            && (forall k :: 0 <= k < i ==> r.hub.jobs[h.order[k]] == h.jobs[h.order[k]])
            && (r.ok ==> forall k :: i <= k < |h.order| ==> Swept(w, h, r.hub, h.order[k]))
    decreases |h.order| - i
  {
    if i < |h.order| {
      var j := h.jobs[h.order[i]];
      if !Hit(w, j) {
        SweepExact(h, i + 1, w, room);
      } else if room > 0 {
        var h1 := Record(h, Lost(w, j));
        SweepExact(h1, i + 1, w, room - 1);
        var r := Sweep(h1, i + 1, w, room - 1);
        forall k | i < k < |h.order| && r.ok
          ensures Swept(w, h, r.hub, h.order[k])
        {
          assert Swept(w, h1, r.hub, h.order[k]);
        }
      }
    }
  }

  lemma {:induction false} ScanQuiet(h: Hub, i: nat)
    requires Keyed(h)
    ensures Quiet(h, Scan(h, i)) && AskedFresh(Scan(h, i))
    decreases |h.order| - i
  {
    if i < |h.order| {
      var j := h.jobs[h.order[i]];
      if j.state != Queued {
        ScanQuiet(h, i + 1);
      } else if Candidates(h, j) == map[] {
        var h1 := Annotate(h, j.id, NoConnectedMatchingAgent);
        ScanQuiet(h1, i + 1);
        QuietTrans(h, h1, Scan(h1, i + 1));
      }
    }
  }

  lemma {:induction false} ScanLeavesOthers(h: Hub, i: nat, x: Uid)
    requires Keyed(h) && x in h.jobs && h.jobs[x].state != Queued
    ensures x in Scan(h, i).jobs && Scan(h, i).jobs[x] == h.jobs[x]
    decreases |h.order| - i
  {
    if i < |h.order| {
      var j := h.jobs[h.order[i]];
      if j.state != Queued {
        ScanLeavesOthers(h, i + 1, x);
      } else if Candidates(h, j) == map[] {
        ScanLeavesOthers(Annotate(h, j.id, NoConnectedMatchingAgent), i + 1, x);
      }
    }
  }

  /** A scan after a recorded change keeps everything, that change included. */
  lemma {:induction false} RecordedScan(h: Hub, h1: Hub, x: Uid, next: nat)
    requires TableInv(h1) && Journaled(h1) && QuietBut(h, h1, x) && h1.jobs[x].state != Queued
    ensures Inv(Scan(h1, next)) && QuietBut(h, Scan(h1, next), x) && Scan(h1, next).jobs[x] == h1.jobs[x]
  {
    ScanKeeps(h1, next);
    QuietButThenQuiet(h, h1, Scan(h1, next), x);
    ScanLeavesOthers(h1, next, x);
  }

  /** A scan keeps everything. */
  lemma {:induction false} ScanKeeps(h: Hub, i: nat)
    requires TableInv(h) && Journaled(h)
    ensures Inv(Scan(h, i)) && Quiet(h, Scan(h, i))
  {
    ScanQuiet(h, i);
    JournaledScan(h, i);
    QuietKeeps(h, Scan(h, i));
  }

  // ------------------------------------------------------------------ submit

  lemma {:induction false} NoRequester(h: Hub, who: Requester, j: Job)
    requires TableInv(h) && FindKey(h, 0, who).None? && j.who == who && !Busy(j)
    ensures forall x :: Fits(h, j, x)
  {
    forall x ensures Fits(h, j, x) {
      assert Sound(h, x);
    }
  }

  /**
   * A submission adds at most one job, queued; the job it answers with is the requester's and does the work asked
   * for.
   */
  lemma {:induction false} SubmitKeeps(h: Hub, capable: bool, who: Requester, work: Work, id: Uid, room: nat)
    requires Inv(h) && id !in h.jobs
    ensures var (h', r) := Submit(h, capable, who, work, id, room);
            && Inv(h')
            && (h' == h || (QuietBut(h, h', id) && h'.jobs[id].state == Queued && r == Accepted(id)))
            && (r.Accepted? ==> r.job in h'.jobs && h'.jobs[r.job].who == who && h'.jobs[r.job].work == work)
            && (r.Accepted? ==> work.plain)
  {
    if capable && FindKey(h, 0, who).None? && |h.jobs| < JOB_RETENTION && work.plain && room > 0 {
      NoRequester(h, who, NewJob(id, who, work));
      RecordKeeps(h, NewJob(id, who, work));
      NewJobScan(h, Record(h, NewJob(id, who, work)), id);
    }
  }

  lemma {:induction false} NewJobScan(h: Hub, h1: Hub, id: Uid)
    requires TableInv(h1) && Journaled(h1) && QuietBut(h, h1, id) && h1.jobs[id].state == Queued
    ensures var h2 := Scan(h1, 0);
            Inv(h2) && QuietBut(h, h2, id) && SameIdentity(h1.jobs[id], h2.jobs[id]) && h2.jobs[id].state == Queued
  {
    ScanKeeps(h1, 0);
    QuietButThenQuiet(h, h1, Scan(h1, 0), id);
    assert QuietAt(h1, Scan(h1, 0), id);
  }

  /** Asking again with the same key never adds a job: the same request gets the same job, another one is refused. */
  lemma {:induction false} SubmitIdempotent(h: Hub, who: Requester, work: Work, id: Uid, room: nat, x: Uid)
    requires Inv(h) && x in h.jobs && h.jobs[x].who == who
    ensures Submit(h, true, who, work, id, room) ==
            (h, if !work.plain then Refused(BadObjectKey) else if h.jobs[x].work == work then Accepted(x)
                else Refused(IdempotencyConflict))
  {
    var f := FindKey(h, 0, who);
    assert Sound(h, x);
    assert f.Some? ==> Apart(h, x, f.value);
  }

  // ------------------------------------------------------------------ abandon, register, disconnect, tick

  lemma {:induction false} AbandonKeeps(h: Hub, capable: bool, tenant: Name, id: Uid, room: nat)
    requires Inv(h) && h.phase.Idle?
    ensures var h' := Abandon(h, capable, tenant, id, room).0;
            && Inv(h')
            && (h' == h || (id in h.jobs && h.jobs[id].state in {Unknown, Queued} && h.jobs[id].who.tenant == tenant
                            && QuietBut(h, h', id)
                            && h'.jobs[id] == h.jobs[id].(state := Abandoned, reason := OperatorAbandoned)))
  {
    if Abandon(h, capable, tenant, id, room).1 == Accepted(id) {
      assert Sound(h, id);
      TransitionKeeps(h, h.jobs[id].(state := Abandoned, reason := OperatorAbandoned));
    }
  }

  lemma {:induction false} RegisterKeeps(h: Hub, p: Peer, granted: set<Name>)
    requires Inv(h)
    ensures var r := Register(h, p, granted); r.Ok? ==>
        Inv(r.value) && r.value.jobs == h.jobs && r.value.journal == h.journal
  {
    var r := Register(h, p, granted);
    if r.Ok? {
      ControlKeeps(h, r.value);
      forall n | r.value.phase.Awaiting? && n in r.value.phase.free ensures !Occupied(r.value, n) {
        assert !Occupied(h, n);
      }
    }
  }

  lemma {:induction false} SweepKeeps(h: Hub, w: Loss, room: nat)
    requires TableInv(h) && Journaled(h)
    ensures var h' := Sweep(h, 0, w, room).hub; TableInv(h') && Journaled(h') && Quiet(h, h')
  {
    SweepQuiet(h, 0, w, room);
    JournaledSweep(h, 0, w, room);
    QuietKeeps(h, Sweep(h, 0, w, room).hub);
  }

  lemma {:induction false} DisconnectKeeps(h: Hub, id: Name, conn: nat, room: nat)
    requires Inv(h) && h.phase.Idle?
    ensures var h' := Disconnect(h, id, conn, room).hub; Inv(h') && Quiet(h, h')
  {
    var h1 := h.(peers := h.peers - {id});
    ControlKeeps(h, h1);
    SweepKeeps(h1, ByDisconnect(id), room);
    QuietTrans(h, h1, Sweep(h1, 0, ByDisconnect(id), room).hub);
  }

  lemma {:induction false} TickKeeps(h: Hub, now: int, room: nat)
    requires Inv(h) && h.phase.Idle?
    ensures var h' := Tick(h, now, room).hub; Inv(h') && Quiet(h, h')
  {
    SweepKeeps(h, ByDeadline(now), room);
    var h1 := Sweep(h, 0, ByDeadline(now), room).hub;
    ScanKeeps(h1, 0);
    QuietTrans(h, h1, Scan(h1, 0));
  }

  // ------------------------------------------------------------------ receipt

  /** The job a receipt names was assigned to that node under that lease. */
  ghost predicate Addressed(h: Hub, node: Name, r: Receipt) {
    r.id in h.jobs && h.jobs[r.id].node == Some(node) && h.jobs[r.id].lease == Some(r.lease)
  }

  /** The job's state and result are this outcome. */
  predicate Has(j: Job, o: Outcome) { o.plain && j.state == o.state && j.result == Some(o.result) }

  /** The table holds this outcome for the job, or the operator gave the job up. */
  ghost predicate Holds(h: Hub, x: Uid, o: Outcome) {
    && x in h.jobs
    && o.state in {Succeeded, Failed, Unknown}
    && (h.jobs[x].state == Abandoned || Has(h.jobs[x], o))
  }

  ghost predicate Settled(h: Hub, h': Hub, r: Receipt) {
    && r.id in h.jobs && !Final(h.jobs[r.id].state) && r.outcome.plain
    && QuietBut(h, h', r.id) && h'.jobs[r.id] == Settle(h.jobs[r.id], r.outcome)
  }

  /** A receipt is acknowledged only when the table holds its outcome afterwards; a refused one changes nothing. */
  lemma {:induction false} ReceiptKeeps(h: Hub, node: Name, tenant: Name, r: Receipt, room: nat)
    requires Inv(h) && h.phase.Idle?
    ensures var (h', a) := TakeReceipt(h, node, tenant, r, room);
            && Inv(h')
            && (a.Err? ==> h' == h)
            && (a.Ok? ==> Addressed(h, node, r) && Holds(h', r.id, r.outcome)
                          && a.value == Ack(r.id, r.lease, h'.jobs[r.id].state))
            && (Quiet(h, h') || (a.Ok? && Settled(h, h', r)))
  {
    var (h', a) := TakeReceipt(h, node, tenant, r, room);
    assert Sound(h, r.id);
    if a.Ok? && !Final(h.jobs[r.id].state) {
      TransitionKeeps(h, Settle(h.jobs[r.id], r.outcome));
      RecordedScan(h, Record(h, Settle(h.jobs[r.id], r.outcome)), r.id, 0);
    } else if a.Ok? && h.jobs[r.id].state != Abandoned {
      ScanKeeps(h, 0);
      ScanLeavesOthers(h, 0, r.id);
    }
  }

  // ------------------------------------------------------------------ the oracle's answer

  /** The only way into ASSIGNED: from QUEUED, to a registered node of the tenant that has the operation. */
  ghost predicate Awarded(h: Hub, h': Hub, x: Uid, node: Name, lease: Uid, state: JobState) {
    && x in h.jobs && h.jobs[x].state == Queued
    && QuietBut(h, h', x)
    && SameIdentity(h.jobs[x], h'.jobs[x])
    && h'.jobs[x].node == Some(node) && h'.jobs[x].lease == Some(lease)
    && h'.jobs[x].state == state && h'.jobs[x].result == None
    && node in h.peers && h.peers[node].tenant == h.jobs[x].who.tenant
    && h.jobs[x].work.op in h.peers[node].operations
  }

  /** An answer awards the job it was asked for exactly when the recheck passes and the journal takes it. */
  lemma {:induction false} AnswerKeeps(h: Hub, p: Placement, now: int, lease: Uid, sent: bool, room: nat)
    requires Inv(h) && h.phase.Awaiting?
    requires p.Placed? ==> p.node in h.phase.free  // the placement contract
    ensures var r := Answer(h, p, now, lease, sent, room);
            Inv(r.hub) &&
            if Dispatches(h, p, now, room)
            then Awarded(h, r.hub, h.order[h.phase.at], p.node, lease, if sent || !r.ok then Assigned else Unknown)
            else Quiet(h, r.hub)
  {
    var x := h.order[h.phase.at];
    var next := h.phase.at + 1;
    assert Sound(h, x);
    match p
    case Unavailable => AnnotatedKeeps(h, x, SchedulerUnavailable, next);
    case Declined(code) => AnnotatedKeeps(h, x, PlacementRefused(code), next);
    case Placed(node) =>
      if !Commits(h, h.jobs[x], h.phase.asked, node, now) {
        ScanKeeps(h, next);
      } else if room == 0 {
        ControlKeeps(h, h.(phase := Idle));
      } else {
        FreeNodeFits(h, x, node, lease, now);
        var a := Award(h.jobs[x], node, lease, now);
        RecordKeeps(h, a);
        CommitKeeps(h, Record(h, a), x, next, sent, room);
      }
  }

  lemma {:induction false} CommitKeeps(h: Hub, h1: Hub, x: Uid, next: nat, sent: bool, room: nat)
    requires TableInv(h1) && Journaled(h1) && QuietBut(h, h1, x)
    requires h1.jobs[x].id == x && h1.jobs[x].state == Assigned
    ensures sent ==> var h2 := Scan(h1, next); Inv(h2) && QuietBut(h, h2, x) && h2.jobs[x] == h1.jobs[x]
    ensures !sent && room > 1 ==>
              var b := h1.jobs[x].(state := Unknown, reason := TransportOutcomeUnknown);
              var h2 := Scan(Record(h1, b), next);
              Inv(h2) && QuietBut(h, h2, x) && h2.jobs[x] == b
    ensures var h2 := h1.(phase := Idle); Inv(h2) && QuietBut(h, h2, x) && h2.jobs[x] == h1.jobs[x]
  {
    RecordedScan(h, h1, x, next);
    StoppedKeeps(h, h1, x);
    if room > 1 {
      var b := h1.jobs[x].(state := Unknown, reason := TransportOutcomeUnknown);
      assert Sound(h1, x);
      TransitionKeeps(h1, b);
      QuietButThenQuiet(h, h1, Record(h1, b), x);
      RecordedScan(h, Record(h1, b), x, next);
    }
  }

  lemma {:induction false} StoppedKeeps(h: Hub, h1: Hub, x: Uid)
    requires TableInv(h1) && Journaled(h1) && QuietBut(h, h1, x)
    ensures var h2 := h1.(phase := Idle); Inv(h2) && QuietBut(h, h2, x) && h2.jobs[x] == h1.jobs[x]
  {
    ControlKeeps(h1, h1.(phase := Idle));
    QuietButThenQuiet(h, h1, h1.(phase := Idle), x);
  }

  lemma {:induction false} FreeNodeFits(h: Hub, x: Uid, node: Name, lease: Uid, now: int)
    requires TableInv(h) && x in h.jobs && !Occupied(h, node)
    ensures forall y :: y != x ==> Fits(h, Award(h.jobs[x], node, lease, now), y)
  {
    forall y | y != x ensures Fits(h, Award(h.jobs[x], node, lease, now), y) {
      assert Apart(h, x, y);
    }
  }

  lemma {:induction false} AnnotatedKeeps(h: Hub, x: Uid, why: Reason, next: nat)
    requires TableInv(h) && Journaled(h) && x in h.jobs && h.jobs[x].state == Queued
    ensures Inv(Scan(Annotate(h, x, why), next)) && Quiet(h, Scan(Annotate(h, x, why), next))
  {
    AnnotateKeeps(h, x, why);
    ScanKeeps(Annotate(h, x, why), next);
    QuietTrans(h, Annotate(h, x, why), Scan(Annotate(h, x, why), next));
  }

  lemma {:induction false} AnnotateKeeps(h: Hub, x: Uid, why: Reason)
    requires TableInv(h) && Journaled(h) && x in h.jobs && h.jobs[x].state == Queued
    ensures var h1 := Annotate(h, x, why); TableInv(h1) && Journaled(h1) && Quiet(h, h1)
  {
    QuietKeeps(h, Annotate(h, x, why));
    JournaledAnnotate(h, x, why);
  }

  // ------------------------------------------------------------------ restart

  lemma {:induction false} ReplayKeeps(h: Hub)
    requires Inv(h)
    ensures var h0 := Replay(h.journal); TableInv(h0) && Journaled(h0) && Quiet(h, h0) && h0.order == h.order
  {
    KeyedReplay(h.journal);
    var h0 := Replay(h.journal);
    forall x ensures QuietAt(h, h0, x) && Replayed(h0, h0, x) {
      assert Replayed(h0, h, x);
    }
    QuietKeeps(h, h0);
  }

  lemma {:induction false} RestartKeeps(h: Hub, room: nat)
    requires Inv(h)
    ensures var r := Restart(h.journal, room); Inv(r.hub) && Quiet(h, r.hub) && r.hub.order == h.order
  {
    ReplayKeeps(h);
    var h0 := Replay(h.journal);
    SweepKeeps(h0, ByRestart, room);
    QuietTrans(h, h0, Sweep(h0, 0, ByRestart, room).hub);
  }

  function Restarted(j: Job): Job {
    if j.state == Assigned then j.(state := Unknown, reason := HubRestart) else Durable(j)
  }

  /** Rebuilding from the journal: every ASSIGNED job is UNKNOWN, every other job is as it was but for the
      reason of a queued one. */
  lemma {:induction false} CrashRefinement(h: Hub, room: nat)
    requires Inv(h)
    ensures var r := Restart(h.journal, room);
            && (room >= |h.order| ==> r.ok)
            && (r.ok ==> forall x :: x in h.jobs ==> x in r.hub.jobs && r.hub.jobs[x] == Restarted(h.jobs[x]))
  {
    ReplayKeeps(h);
    var h0 := Replay(h.journal);
    SweepExact(h0, 0, ByRestart, room);
    var r := Sweep(h0, 0, ByRestart, room);
    if r.ok {
      forall x | x in h.jobs
        ensures x in r.hub.jobs && r.hub.jobs[x] == Restarted(h.jobs[x])
      {
        assert Sound(h, x) && Replayed(h0, h, x);
        assert Swept(ByRestart, h0, r.hub, x);
      }
    }
  }
}
