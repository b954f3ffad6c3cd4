/** Every interleaving of dispatcher and workers: the invariant of slots and registry, and what follows. */
module LeaseRuns {
  import opened ByteStrings
  import opened Results
  import opened Leases

  // ---- Handles ---------------------------------------------------------------------------------

  /** Decoding undoes encoding within the 16/16 bits of the indexes, and encoding always undoes decoding. */
  lemma DecodeEncode(id: SlotId, generation: nat)
    requires Addressable(id)
    ensures Decode(Encode(id, generation)) == Parts(id, generation)
  {
    var high := generation * INDEXES + id.pool;
    Halves(high, id.index);
    Halves(generation, id.pool);
  }

  /** A number taken apart at 16 bits. */
  lemma Halves(high: nat, low: nat)
    requires low < INDEXES
    ensures (high * INDEXES + low) / INDEXES == high && (high * INDEXES + low) % INDEXES == low
    ensures (high * INDEXES + low) / GENERATIONS == high / INDEXES
  {
  }

  lemma EncodeDecode(token: nat)
    ensures Addressable(Decode(token).slot) && Encode(Decode(token).slot, Decode(token).generation) == token
  {
  }

  lemma EncodePositive(id: SlotId, generation: nat)
    requires generation > 0
    ensures Encode(id, generation) != 0
  {
  }

  /** The handle fits 64 bits exactly when the generation fits 32. */
  lemma HandleWidth(id: SlotId, generation: nat)
    requires Addressable(id)
    ensures Encode(id, generation) < GENERATIONS * GENERATIONS <==> generation < GENERATIONS
  {
  }

  // ---- Generations ---------------------------------------------------------------------------------

  /** The generation after `n` acquisitions. */
  function GenerationAfter(n: nat): nat { if n == 0 then 0 else NextGeneration(GenerationAfter(n - 1)) }

  lemma {:induction false} GenerationIs(n: nat)
    requires n > 0
    ensures GenerationAfter(n) == (n - 1) % (GENERATIONS - 1) + 1
  {
    hide NextGeneration;
    if n > 1 {
      GenerationIs(n - 1);
      ModNext(n - 2);
      NextIs(GenerationAfter(n - 1));
    } else {
      assert GenerationAfter(1) == NextGeneration(GenerationAfter(0));
      NextIs(0);
    }
  }

  lemma NextIs(g: nat)
    requires g < GENERATIONS
    ensures NextGeneration(g) == if g == GENERATIONS - 1 then 1 else g + 1
  {
  }

  lemma ModNext(k: nat)
    ensures (k + 1) % (GENERATIONS - 1) == if k % (GENERATIONS - 1) == GENERATIONS - 2 then 0
      else k % (GENERATIONS - 1) + 1
  {
  }

  /** Two acquisitions of a slot get the same handle exactly when they are a multiple of 2^32 - 1 apart. */
  lemma HandleReused(id: SlotId, m: nat, n: nat)
    requires Addressable(id) && m > 0 && n > 0
    ensures Encode(id, GenerationAfter(m)) == Encode(id, GenerationAfter(n)) <==>
      m % (GENERATIONS - 1) == n % (GENERATIONS - 1)
  {
    GenerationIs(m);
    GenerationIs(n);
    DecodeEncode(id, GenerationAfter(m));
    DecodeEncode(id, GenerationAfter(n));
    ModNext(m - 1);
    ModNext(n - 1);
  }

  // ---- One slot --------------------------------------------------------------------------------------

  function Current(id: SlotId, slot: Slot): nat { Encode(id, slot.generation) }

  /** A handle of this slot. */
  predicate Names(id: SlotId, token: nat) { Decode(token).slot == id }

  /** The handle of the slot's `n`-th lease. */
  function Handle(id: SlotId, n: nat): nat { Encode(id, GenerationAfter(n)) }

  lemma GenerationPositive(n: nat)
    requires n > 0
    ensures GenerationAfter(n) > 0
  {
    GenerationIs(n);
  }

  /** Leases that are one or two apart have different handles. */
  lemma HandlesApart(id: SlotId, m: nat, n: nat)
    requires Addressable(id) && 0 < m < n <= m + 2
    ensures Handle(id, m) != Handle(id, n)
  {
    hide GenerationAfter;
    HandleReused(id, m, n);
    ModNext(m);
    ModNext(m + 1);
  }

  /** Jobs still to reach the driver, in order. */
  function Pending(slot: Slot): seq<Job> { (if slot.stage.Checked? then [slot.stage.job] else []) + slot.queue }

  /** Jobs without an answer. */
  function Unanswered(slot: Slot): seq<Job> {
    (if slot.stage.Completing? then [slot.stage.job] else []) + Pending(slot)
  }

  predicate Carries(job: Job) { job.token != 0 && !job.op.Begin? }

  predicate NoBegin(jobs: seq<Job>) { forall i | 0 <= i < |jobs| :: !jobs[i].op.Begin? }

  predicate AllCarry(jobs: seq<Job>) { forall i | 0 <= i < |jobs| :: Carries(jobs[i]) }

  /**
   BEGIN of the handle stands at `b`: before it no BEGIN and nothing of the handle, after it only jobs with handles.
   */
  predicate BeginStands(jobs: seq<Job>, token: nat, b: nat) {
    && b < |jobs| && jobs[b].op.Begin? && jobs[b].token == token
    && (forall i | 0 <= i < b :: !jobs[i].op.Begin? && jobs[i].token != token)
    && (forall i | b < i < |jobs| :: Carries(jobs[i]))
  }

  predicate BeginQueued(jobs: seq<Job>, token: nat) { exists b: nat | b < |jobs| :: BeginStands(jobs, token, b) }

  /** How the lease, the queue and the worker's transaction hang together while the slot runs. */
  predicate LeaseOk(id: SlotId, slot: Slot) {
    if slot.mode.Idle? then slot.active == 0 && NoBegin(Pending(slot))
    else if BeginQueued(Pending(slot), Current(id, slot)) then
      slot.active == 0 && (slot.stage.Completing? ==> slot.stage.job.token != Current(id, slot))
    else
      && AllCarry(Pending(slot)) && (slot.active == 0 || slot.active == Current(id, slot))
      && (&& slot.stage.Completing? && slot.stage.job.token == Current(id, slot)
          && GivesBack(slot.stage.job, slot.stage.outcome)
          ==> slot.active == 0)
  }

  /**
   A job that may be without an answer once the slot has been leased `n` times and the `n`-th BEGIN is
   past: without a handle, of that lease, or left over from the lease before and no COMMIT.
   */
  predicate Recent(id: SlotId, n: nat, job: Job) {
    || job.token == 0
    || (n > 0 && job.token == Handle(id, n))
    || (n > 1 && job.token == Handle(id, n - 1) && !job.op.Commit?)
  }

  /** A job left over when the `n`-th lease was granted. */
  predicate Older(id: SlotId, n: nat, job: Job) { n > 0 && Recent(id, n - 1, job) }

  /** In front of a BEGIN stand the jobs of earlier leases, behind it the jobs since. */
  predicate Around(id: SlotId, n: nat, jobs: seq<Job>) {
    && (forall i, b | 0 <= i < b < |jobs| && jobs[b].op.Begin? :: Older(id, n, jobs[i]))
    && (forall i, b | 0 <= b < i < |jobs| && jobs[b].op.Begin? :: Recent(id, n, jobs[i]))
  }

  predicate AllRecent(id: SlotId, n: nat, jobs: seq<Job>) { forall i | 0 <= i < |jobs| :: Recent(id, n, jobs[i]) }

  /** How old the handles in front of the worker are. */
  predicate AgesOk(id: SlotId, slot: Slot) {
    if !slot.mode.Idle? && BeginQueued(Pending(slot), Current(id, slot)) then
      && slot.acquired > 0 && Around(id, slot.acquired, Pending(slot))
      && (slot.stage.Completing? ==> Older(id, slot.acquired, slot.stage.job))
    else AllRecent(id, slot.acquired, Unanswered(slot))
  }

  predicate JobOk(id: SlotId, job: Job) {
    && (job.token != 0 ==> Names(id, job.token))
    && (job.op.Begin? || job.op.Commit? || job.op.Rollback? ==> job.token != 0)
    && (job.original.Some? ==> job.op.Rollback? && !job.original.value.ok)
    && (job.original.None? ==> job.client == job.ticket)
  }

  predicate JobsOk(id: SlotId, slot: Slot) {
    forall i | 0 <= i < |Unanswered(slot)| :: JobOk(id, Unanswered(slot)[i])
  }

  /** The worker's own variables against what the driver saw. */
  predicate WorkerOk(slot: Slot) {
    && Isolated(slot.history)
    && slot.connected == SessionUp(slot.history)
    && OpenIn(slot.history) == (if slot.active == 0 then None else Some(slot.active))
    && (slot.active != 0 ==> slot.connected)
    && (slot.stage.Checked? ==> slot.active == if Carries(slot.stage.job) then slot.stage.job.token else 0)
  }

  predicate LocalOk(id: SlotId, slot: Slot) {
    && slot.generation == GenerationAfter(slot.acquired)
    && (!slot.mode.Idle? ==> slot.acquired > 0)
    && JobsOk(id, slot)
    && WorkerOk(slot)
    && (slot.running ==> LeaseOk(id, slot) && AgesOk(id, slot))
  }

  // ---- Lists of jobs ------------------------------------------------------------------------------------

  lemma BeginQueuedAt(jobs: seq<Job>, token: nat) returns (b: nat)
    requires BeginQueued(jobs, token)
    ensures BeginStands(jobs, token, b)
  {
    b :| b < |jobs| && BeginStands(jobs, token, b);
  }

  lemma BeginAppend(jobs: seq<Job>, token: nat, job: Job)
    requires Carries(job)
    ensures BeginQueued(jobs, token) ==> BeginQueued(jobs + [job], token)
    ensures !BeginQueued(jobs, token) ==> !BeginQueued(jobs + [job], token)
  {
    if BeginQueued(jobs, token) {
      var b := BeginQueuedAt(jobs, token);
      assert BeginStands(jobs + [job], token, b);
    } else if BeginQueued(jobs + [job], token) {
      var b := BeginQueuedAt(jobs + [job], token);
      assert forall i | 0 <= i < |jobs| :: (jobs + [job])[i] == jobs[i];
      assert BeginStands(jobs, token, b);
    }
  }

  lemma NoBeginNotQueued(jobs: seq<Job>, token: nat)
    requires NoBegin(jobs)
    ensures !BeginQueued(jobs, token)
  {
    if BeginQueued(jobs, token) { var b := BeginQueuedAt(jobs, token); }
  }

  lemma BeginTail(jobs: seq<Job>, token: nat)
    requires jobs != [] && BeginQueued(jobs, token)
    ensures jobs[0].op.Begin? ==> jobs[0].token == token && AllCarry(jobs[1..]) && !BeginQueued(jobs[1..], token)
    ensures !jobs[0].op.Begin? ==> jobs[0].token != token && BeginQueued(jobs[1..], token)
  {
    var b := BeginQueuedAt(jobs, token);
    if b > 0 {
      assert BeginStands(jobs[1..], token, b - 1);
    } else {
      NoBeginNotQueued(jobs[1..], token);
    }
  }

  lemma CarryNotQueued(jobs: seq<Job>, token: nat)
    requires AllCarry(jobs)
    ensures !BeginQueued(jobs, token) && NoBegin(jobs)
  {
    NoBeginNotQueued(jobs, token);
  }

  // ---- Worker stages keep the local invariant -------------------------------------------------------------

  lemma JobsKept(id: SlotId, a: Slot, b: Slot)
    requires JobsOk(id, a)
    requires forall i | 0 <= i < |Unanswered(b)| :: Unanswered(b)[i] in Unanswered(a)
    ensures JobsOk(id, b)
  {
    hide Decode, Unanswered;
  }

  lemma TakeOk(id: SlotId, slot: Slot)
    requires LocalOk(id, slot)
    ensures LocalOk(id, Take(slot))
  {
    hide Isolated, SessionUp, OpenIn, LeaseOk, AgesOk, GenerationAfter, JobsOk, Carries;
    if slot.queue != [] && slot.stage.Resting? {
      var next := Take(slot);
      assert Unanswered(next) == slot.queue == Unanswered(slot);
      JobsKept(id, slot, next);
      if slot.running { TakeLease(id, slot); TakeAges(id, slot); }
    }
  }

  lemma TakeLease(id: SlotId, slot: Slot)
    requires slot.running && slot.queue != [] && slot.stage.Resting? && LeaseOk(id, slot) && JobsOk(id, slot)
    ensures LeaseOk(id, Take(slot))
    ensures Take(slot).stage.Checked? ==> slot.active == if Carries(slot.queue[0]) then slot.queue[0].token else 0
  {
    hide Names, Encode, BeginQueued;
    var job := slot.queue[0];
    var next := Take(slot);
    var cur := Current(id, slot);
    assert Pending(slot) == slot.queue && Unanswered(slot)[0] == job;
    assert next.stage.Checked? ==> Pending(next) == slot.queue;
    assert next.stage.Completing? ==> Pending(next) == slot.queue[1..];
    if !slot.mode.Idle? {
      if BeginQueued(slot.queue, cur) { BeginTail(slot.queue, cur); } else { CarryNotQueued(slot.queue[1..], cur); }
    }
  }

  lemma FailedConnectOk(id: SlotId, slot: Slot, outcome: Outcome)
    requires LocalOk(id, slot) && slot.stage.Checked? && slot.active == 0
    ensures LocalOk(id, slot.(stage := Completing(slot.stage.job, outcome)))
  {
    hide Isolated, SessionUp, OpenIn, LeaseOk, AgesOk, GenerationAfter, JobsOk, Carries;
    var next := slot.(stage := Completing(slot.stage.job, outcome));
    assert Unanswered(next) == Unanswered(slot);
    JobsKept(id, slot, next);
    if slot.running { DriverLease(id, slot, next); DriverAges(id, slot, next); }
  }

  /** The checked job has reached its end; the worker holds no transaction, or still the lease's own. */
  lemma DriverLease(id: SlotId, slot: Slot, next: Slot)
    requires LeaseOk(id, slot) && slot.stage.Checked? && next.stage.Completing? && next.stage.job == slot.stage.job
    requires next.mode == slot.mode && next.generation == slot.generation && next.queue == slot.queue
    requires slot.stage.job.op.Begin? ==>
      slot.active == 0 && (next.active == 0 || (next.active == slot.stage.job.token && next.stage.outcome.ok))
    requires !slot.stage.job.op.Begin? ==>
      next.active == 0 || (next.active == slot.active && !GivesBack(next.stage.job, next.stage.outcome))
    ensures LeaseOk(id, next)
  {
    hide Encode, BeginQueued;
    var cur := Current(id, slot);
    assert Pending(slot)[0] == slot.stage.job && Pending(slot)[1..] == slot.queue == Pending(next);
    if !slot.mode.Idle? {
      if BeginQueued(Pending(slot), cur) { BeginTail(Pending(slot), cur); } else { CarryNotQueued(slot.queue, cur); }
    }
  }

  // ---- Ages ------------------------------------------------------------------------------------------------

  lemma AroundTail(id: SlotId, n: nat, jobs: seq<Job>)
    requires jobs != [] && Around(id, n, jobs)
    ensures Around(id, n, jobs[1..])
    ensures jobs[0].op.Begin? ==> AllRecent(id, n, jobs[1..])
    ensures (exists b: nat | 0 < b < |jobs| :: jobs[b].op.Begin?) ==> Older(id, n, jobs[0])
  {
    hide Recent, Older;
    var tail := jobs[1..];
    forall i, b | 0 <= i < b < |tail| && tail[b].op.Begin? ensures Older(id, n, tail[i]) {
      assert tail[i] == jobs[i + 1] && tail[b] == jobs[b + 1];
    }
    forall i, b | 0 <= b < i < |tail| && tail[b].op.Begin? ensures Recent(id, n, tail[i]) {
      assert tail[i] == jobs[i + 1] && tail[b] == jobs[b + 1];
    }
    assert forall i | 0 <= i < |tail| :: tail[i] == jobs[i + 1];
  }

  lemma BeginBehind(jobs: seq<Job>, token: nat)
    requires jobs != [] && BeginQueued(jobs, token) && !jobs[0].op.Begin?
    ensures exists b: nat | 0 < b < |jobs| :: jobs[b].op.Begin?
  {
    var b := BeginQueuedAt(jobs, token);
  }

  lemma TakeAges(id: SlotId, slot: Slot)
    requires slot.running && slot.queue != [] && slot.stage.Resting? && LeaseOk(id, slot) && AgesOk(id, slot)
    ensures AgesOk(id, Take(slot))
  {
    hide AgesOk, LeaseOk;
    var next := Take(slot);
    if next.stage.Checked? { CheckedAges(id, slot, next); } else { RefusedAges(id, slot, next); }
  }

  lemma CheckedAges(id: SlotId, slot: Slot, next: Slot)
    requires AgesOk(id, slot) && slot.queue != [] && slot.stage.Resting?
    requires next == slot.(queue := slot.queue[1..], stage := Checked(slot.queue[0]))
    ensures AgesOk(id, next)
  {
    hide Encode, BeginQueued, Recent, Around;
    assert Pending(slot) == slot.queue == Pending(next) && Unanswered(slot) == slot.queue == Unanswered(next);
  }

  lemma RefusedAges(id: SlotId, slot: Slot, next: Slot)
    requires LeaseOk(id, slot) && AgesOk(id, slot) && slot.queue != [] && slot.stage.Resting?
    requires next.stage.Completing? && !slot.queue[0].op.Begin?
    requires next == slot.(queue := slot.queue[1..], stage := Completing(slot.queue[0], next.stage.outcome))
    ensures AgesOk(id, next)
  {
    hide Encode, BeginQueued, Recent, Around, GivesBack;
    var jobs, cur := slot.queue, Current(id, slot);
    assert Pending(slot) == jobs && Unanswered(slot) == jobs == Unanswered(next) && Pending(next) == jobs[1..];
    if !slot.mode.Idle? {
      if BeginQueued(jobs, cur) {
        BeginTail(jobs, cur);
        BeginBehind(jobs, cur);
        AroundTail(id, slot.acquired, jobs);
      } else {
        CarryNotQueued(jobs[1..], cur);
      }
    }
  }

  lemma DriverAges(id: SlotId, slot: Slot, next: Slot)
    requires LeaseOk(id, slot) && AgesOk(id, slot) && slot.generation == GenerationAfter(slot.acquired)
    requires slot.stage.Checked? && next.stage.Completing? && next.stage.job == slot.stage.job && next.mode == slot.mode
    requires next.generation == slot.generation && next.acquired == slot.acquired && next.queue == slot.queue
    ensures AgesOk(id, next)
  {
    hide Encode, GenerationAfter, BeginQueued, Around;
    var jobs, cur := Pending(slot), Current(id, slot);
    assert jobs == [slot.stage.job] + slot.queue && jobs[1..] == slot.queue == Pending(next);
    assert Unanswered(slot) == jobs && Unanswered(next) == jobs;
    if !slot.mode.Idle? {
      if BeginQueued(jobs, cur) {
        BeginTail(jobs, cur);
        AroundTail(id, slot.acquired, jobs);
        if !jobs[0].op.Begin? { BeginBehind(jobs, cur); }
      } else {
        CarryNotQueued(slot.queue, cur);
      }
    }
  }

  lemma SameAges(id: SlotId, slot: Slot, next: Slot)
    requires AgesOk(id, slot) && (next.mode.Idle? <==> slot.mode.Idle?) && next.generation == slot.generation
    requires next.acquired == slot.acquired && next.queue == slot.queue && next.stage == slot.stage
    ensures AgesOk(id, next)
  {
    hide Encode, BeginQueued, Around, AllRecent, Recent;
    assert Pending(next) == Pending(slot) && Unanswered(next) == Unanswered(slot);
  }

  lemma RestAges(id: SlotId, slot: Slot)
    requires AgesOk(id, slot) && slot.stage.Completing?
    ensures AgesOk(id, slot.(stage := Resting))
  {
    hide Recent, Older, Encode, BeginQueued, Around;
    var rest := slot.(stage := Resting);
    assert Pending(rest) == Pending(slot) == slot.queue && Unanswered(rest) == slot.queue;
    assert Unanswered(slot) == [slot.stage.job] + slot.queue;
    assert forall i | 0 <= i < |slot.queue| :: slot.queue[i] == Unanswered(slot)[i + 1];
  }

  /** The cleanup of a failed COMMIT is as recent as the COMMIT was, or one lease older. */
  lemma CleanupAge(id: SlotId, slot: Slot, cleanup: Job)
    requires AgesOk(id, slot) && slot.stage.Completing? && slot.stage.job.op.Commit? && slot.stage.job.token != 0
    requires cleanup.op.Rollback? && cleanup.token == slot.stage.job.token
    ensures Recent(id, slot.acquired, cleanup)
  {
    hide Handle, Encode, BeginQueued, Around, Pending;
    assert Unanswered(slot)[0] == slot.stage.job;
  }

  lemma AppendAges(id: SlotId, slot: Slot, next: Slot, job: Job)
    requires AgesOk(id, slot) && Recent(id, slot.acquired, job) && !job.op.Begin? && (slot.mode.Idle? || Carries(job))
    requires next.mode == slot.mode && next.generation == slot.generation && next.acquired == slot.acquired
    requires next.stage == slot.stage
    requires Pending(next) == Pending(slot) + [job] && Unanswered(next) == Unanswered(slot) + [job]
    ensures AgesOk(id, next)
  {
    hide Recent, Encode, BeginQueued, Pending, Unanswered;
    if !slot.mode.Idle? { BeginAppend(Pending(slot), Current(id, slot), job); }
    if !slot.mode.Idle? && BeginQueued(Pending(slot), Current(id, slot)) {
      AroundAppend(id, slot.acquired, Pending(slot), job);
    }
  }

  lemma AroundAppend(id: SlotId, n: nat, jobs: seq<Job>, job: Job)
    requires Around(id, n, jobs) && Recent(id, n, job) && !job.op.Begin?
    ensures Around(id, n, jobs + [job])
  {
    hide Recent, Older;
    var longer := jobs + [job];
    forall i, b | 0 <= i < b < |longer| && longer[b].op.Begin? ensures Older(id, n, longer[i]) {
      assert longer[i] == jobs[i] && longer[b] == jobs[b];
    }
    forall i, b | 0 <= b < i < |longer| && longer[b].op.Begin? ensures Recent(id, n, longer[i]) {
      assert longer[b] == jobs[b];
      if i < |jobs| { assert longer[i] == jobs[i]; }
    }
  }

  lemma AroundBegin(id: SlotId, n: nat, jobs: seq<Job>, job: Job)
    requires AllRecent(id, n, jobs) && NoBegin(jobs) && job.op.Begin?
    ensures Around(id, n + 1, jobs + [job])
  {
    hide Recent;
    assert forall i | 0 <= i < |jobs| :: (jobs + [job])[i] == jobs[i];
  }

  // ---- Driver histories ------------------------------------------------------------------------------------

  lemma IsolatedAppend(history: seq<Native>, native: Native)
    requires Isolated(history) && Fits(history, native)
    ensures Isolated(history + [native])
  {
    hide Fits;
    var longer := history + [native];
    forall i | 0 <= i < |longer| ensures Fits(longer[..i], longer[i]) {
      if i < |history| { assert longer[..i] == history[..i]; } else { assert longer[..i] == history; }
    }
  }

  lemma OpenAppend(history: seq<Native>, native: Native)
    ensures OpenIn(history + [native]) ==
      match native
      case Connected => None
      case Closed => None
      case Ran(job, answer) =>
        if answer.ok && job.op.Begin? then Some(job.token) else if answer.ok && (job.op.Commit? || job.op.Rollback?)
          then None
          else OpenIn(history)
    ensures SessionUp(history + [native]) == if native.Ran? then SessionUp(history) else native.Connected?
  {
    assert (history + [native])[..|history|] == history;
  }

  lemma ConnectOk(id: SlotId, slot: Slot, outcome: Outcome)
    requires LocalOk(id, slot)
    ensures LocalOk(id, Connect(slot, outcome))
  {
    hide Isolated, SessionUp, OpenIn, LeaseOk, AgesOk, GenerationAfter, JobsOk, Carries, Fits;
    if slot.stage.Checked? && !slot.connected {
      if outcome.ok {
        IsolatedConnect(slot.history, Connected);
        OpenAppend(slot.history, Connected);
        var next := Connect(slot, outcome);
        assert Unanswered(next) == Unanswered(slot);
        JobsKept(id, slot, next);
        if slot.running { SameLease(id, slot, next); SameAges(id, slot, next); }
      } else {
        FailedConnectOk(id, slot, outcome);
      }
    }
  }

  lemma IsolatedConnect(history: seq<Native>, native: Native)
    requires Isolated(history) && !native.Ran?
    ensures Isolated(history + [native])
  {
    hide Isolated;
    IsolatedAppend(history, native);
  }

  lemma SameLease(id: SlotId, slot: Slot, next: Slot)
    requires LeaseOk(id, slot) && next.mode == slot.mode && next.generation == slot.generation
    requires next.queue == slot.queue
    requires next.stage == slot.stage && next.active == slot.active
    ensures LeaseOk(id, next)
  {
    hide Encode, BeginQueued, AllCarry, NoBegin;
    assert Pending(next) == Pending(slot);
  }

  lemma LeaveOk(id: SlotId, slot: Slot)
    requires LocalOk(id, slot)
    ensures LocalOk(id, Leave(slot))
  {
    hide Isolated, SessionUp, OpenIn, LeaseOk, AgesOk, GenerationAfter, JobsOk, Carries, Fits;
    IsolatedConnect(slot.history, Closed);
    OpenAppend(slot.history, Closed);
    assert Unanswered(Leave(slot)) == Unanswered(slot);
    JobsKept(id, slot, Leave(slot));
  }

  lemma ExecuteHistory(slot: Slot, outcome: Outcome)
    requires WorkerOk(slot) && slot.stage.Checked? && slot.connected
    requires slot.stage.job.op.Begin? ==> slot.stage.job.token != 0
    ensures WorkerOk(Execute(slot, outcome))
  {
    hide Isolated, SessionUp, OpenIn;
    var job := slot.stage.job;
    var ran := Ran(job, outcome);
    IsolatedAppend(slot.history, ran);
    OpenAppend(slot.history, ran);
    IsolatedConnect(slot.history + [ran], Closed);
    OpenAppend(slot.history + [ran], Closed);
  }

  lemma ExecuteOk(id: SlotId, slot: Slot, outcome: Outcome)
    requires LocalOk(id, slot)
    ensures LocalOk(id, Execute(slot, outcome))
  {
    hide LeaseOk, AgesOk, GenerationAfter, JobsOk, Isolated, SessionUp, OpenIn, Names;
    if slot.stage.Checked? && slot.connected {
      var next := Execute(slot, outcome);
      assert Unanswered(next) == Unanswered(slot);
      CheckedJob(id, slot);
      ExecuteHistory(slot, outcome);
      JobsKept(id, slot, next);
      if slot.running { DriverLease(id, slot, next); DriverAges(id, slot, next); }
    }
  }

  lemma CheckedJob(id: SlotId, slot: Slot)
    requires JobsOk(id, slot) && slot.stage.Checked?
    ensures JobOk(id, slot.stage.job)
  {
    hide JobOk;
    assert Unanswered(slot)[0] == slot.stage.job;
  }

  // ---- Tickets and answers -----------------------------------------------------------------------------------

  /** The driver ran the client's own request, not a cleanup on its behalf. */
  predicate OwnRun(native: Native, client: nat) {
    native.Ran? && native.job.original.None? && native.job.client == client
  }

  /** The answer is the report of the run of the client's request, or a failure if there was none. */
  predicate Says(history: seq<Native>, client: nat, answer: Answer) {
    && (forall i | 0 <= i < |history| && OwnRun(history[i], client) ::
          answer == Answer(history[i].job.op, history[i].job.token, Reported(history[i].job, history[i].answer)))
    && (!Handed(history, client) ==> !answer.outcome.ok)
  }

  lemma SaysStill(history: seq<Native>, native: Native, client: nat, answer: Answer)
    requires Says(history, client, answer) && !OwnRun(native, client)
    ensures Says(history + [native], client, answer)
  {
    hide Reported, Handed;
    var longer := history + [native];
    HandedAppend(history, native, client);
    forall i | 0 <= i < |longer| && OwnRun(longer[i], client)
      ensures answer == Answer(longer[i].job.op, longer[i].job.token, Reported(longer[i].job, longer[i].answer))
    {
      assert i < |history| && longer[i] == history[i];
    }
  }

  lemma SaysRun(history: seq<Native>, job: Job, answer: Outcome)
    requires Unseen(history, job) && job.original.None?
    ensures Says(history + [Ran(job, answer)], job.client, Answer(job.op, job.token, Reported(job, answer)))
  {
    hide Reported;
    var longer := history + [Ran(job, answer)];
    assert longer[|history|] == Ran(job, answer);
    forall i | 0 <= i < |history| ensures !OwnRun(longer[i], job.client) {
      assert longer[i] == history[i];
    }
  }

  predicate Numbered(slot: Slot, job: Job) {
    job.ticket < slot.tickets && job.client < slot.tickets && job.client !in slot.answers
  }

  predicate Apart(jobs: seq<Job>) {
    forall i, j | 0 <= i < j < |jobs| :: jobs[i].ticket != jobs[j].ticket && jobs[i].client != jobs[j].client
  }

  predicate Unseen(history: seq<Native>, job: Job) {
    && (forall i | 0 <= i < |history| && history[i].Ran? :: history[i].job.ticket != job.ticket)
    && (job.original.None? ==> !Handed(history, job.client))
  }

  predicate HistoryNumbered(slot: Slot) {
    forall i | 0 <= i < |slot.history| && slot.history[i].Ran? ::
      slot.history[i].job.ticket < slot.tickets && slot.history[i].job.client < slot.tickets
  }

  predicate AnswersOk(slot: Slot) {
    forall n | n in slot.answers :: n < slot.tickets && Says(slot.history, n, slot.answers[n])
  }

  predicate CleanupsOk(slot: Slot) {
    forall i | 0 <= i < |Unanswered(slot)| && Unanswered(slot)[i].original.Some? ::
      var job := Unanswered(slot)[i]; Says(slot.history, job.client, Answer(Commit, job.token, job.original.value))
  }

  predicate TicketsOk(slot: Slot) {
    && (forall i | 0 <= i < |Unanswered(slot)| :: Numbered(slot, Unanswered(slot)[i]))
    && Apart(Unanswered(slot))
    && HistoryNumbered(slot) && OnceEach(slot.history)
    && (forall i | 0 <= i < |Pending(slot)| :: Unseen(slot.history, Pending(slot)[i]))
    && (slot.stage.Completing? && slot.stage.job.original.None? ==>
          Says(slot.history, slot.stage.job.client,
            Answer(slot.stage.job.op, slot.stage.job.token, slot.stage.outcome)))
    && CleanupsOk(slot)
    && AnswersOk(slot)
  }

  lemma HandedAppend(history: seq<Native>, native: Native, client: nat)
    ensures Handed(history + [native], client)
       <==> Handed(history, client) || (native.Ran? && native.job.original.None? && native.job.client == client)
  {
    var longer := history + [native];
    assert forall i | 0 <= i < |history| :: longer[i] == history[i];
    if native.Ran? && native.job.original.None? && native.job.client == client { assert longer[|history|] == native; }
  }

  /** The stage moved on, the driver saw nothing. */
  lemma StageTickets(slot: Slot, next: Slot)
    requires TicketsOk(slot) && Unanswered(next) == Unanswered(slot) && next.history == slot.history
    requires next.tickets == slot.tickets && next.answers == slot.answers
    requires forall i | 0 <= i < |Pending(next)| :: Pending(next)[i] in Pending(slot)
    requires next.stage.Completing? ==>
      next.stage == slot.stage || (next.stage.job in Pending(slot) && !next.stage.outcome.ok)
    ensures TicketsOk(next)
  {
    hide OnceEach, Apart, Says, Unseen, Unanswered, Pending;
    if next.stage.Completing? && next.stage != slot.stage && next.stage.job.original.None? {
      assert Unseen(slot.history, next.stage.job);
      NotHanded(slot.history, next.stage.job, next.stage.outcome);
    }
  }

  lemma NotHanded(history: seq<Native>, job: Job, outcome: Outcome)
    requires Unseen(history, job) && job.original.None? && !outcome.ok
    ensures Says(history, job.client, Answer(job.op, job.token, outcome))
  {
  }

  lemma TakeTickets(slot: Slot)
    requires TicketsOk(slot)
    ensures TicketsOk(Take(slot))
  {
    hide TicketsOk, Pending, Unanswered;
    if slot.queue != [] && slot.stage.Resting? {
      TakeShape(slot);
      StageTickets(slot, Take(slot));
    }
  }

  lemma TakeShape(slot: Slot)
    requires slot.queue != [] && slot.stage.Resting?
    ensures var next := Take(slot);
      && Unanswered(next) == Unanswered(slot)
      && (forall i | 0 <= i < |Pending(next)| :: Pending(next)[i] in Pending(slot))
      && (next.stage.Completing? ==> next.stage.job in Pending(slot) && !next.stage.outcome.ok)
  {
    hide Pending, Unanswered, Take;
    TakeLists(slot);
    TailIn(slot.queue);
  }

  lemma TakeLists(slot: Slot)
    requires slot.queue != [] && slot.stage.Resting?
    ensures Pending(slot) == slot.queue && Unanswered(slot) == slot.queue && Unanswered(Take(slot)) == slot.queue
    ensures Take(slot).stage.Checked? ==> Pending(Take(slot)) == slot.queue
    ensures Take(slot).stage.Completing? ==>
      Pending(Take(slot)) == slot.queue[1..] && Take(slot).stage.job == slot.queue[0] && !Take(slot).stage.outcome.ok
    ensures !Take(slot).stage.Resting?
  {
    assert [slot.queue[0]] + slot.queue[1..] == slot.queue;
  }

  lemma TailIn(jobs: seq<Job>)
    requires jobs != []
    ensures jobs[0] in jobs && (forall i | 0 <= i < |jobs[1..]| :: jobs[1..][i] in jobs)
    ensures forall i | 0 <= i < |jobs| :: jobs[i] in jobs
  {
  }

  lemma ConnectTickets(slot: Slot, outcome: Outcome)
    requires TicketsOk(slot)
    ensures TicketsOk(Connect(slot, outcome))
  {
    hide TicketsOk;
    var next := Connect(slot, outcome);
    if slot.stage.Checked? && !slot.connected {
      assert Unanswered(next) == Unanswered(slot) && slot.stage.job == Pending(slot)[0];
      if outcome.ok { QuietHistory(slot, next, Connected); } else { StageTickets(slot, next); }
    }
  }

  /** The driver was asked for something other than a job. */
  lemma QuietHistory(slot: Slot, next: Slot, native: Native)
    requires TicketsOk(slot) && !native.Ran? && next.history == slot.history + [native]
    requires next.tickets == slot.tickets && next.answers == slot.answers && next.stage == slot.stage
    requires next.queue == slot.queue
    ensures TicketsOk(next)
  {
    hide Apart, Handed, Says;
    assert Unanswered(next) == Unanswered(slot) && Pending(next) == Pending(slot);
    forall client: nat, answer: Answer | Says(slot.history, client, answer) ensures Says(next.history, client, answer) {
      SaysStill(slot.history, native, client, answer);
    }
    forall client ensures Handed(next.history, client) == Handed(slot.history, client) {
      HandedAppend(slot.history, native, client);
    }
    assert forall i | 0 <= i < |slot.history| :: next.history[i] == slot.history[i];
  }

  lemma LeaveTickets(slot: Slot)
    requires TicketsOk(slot)
    ensures TicketsOk(Leave(slot))
  {
    hide TicketsOk;
    if Leave(slot) != slot { QuietHistory(slot, Leave(slot), Closed); }
  }

  /** The driver ran the checked job. */
  lemma RanTickets(slot: Slot, next: Slot, answer: Outcome)
    requires TicketsOk(slot) && slot.stage.Checked? && next.stage.Completing? && next.stage.job == slot.stage.job
    requires next.history == slot.history + [Ran(slot.stage.job, answer)] && next.queue == slot.queue
    requires next.tickets == slot.tickets && next.answers == slot.answers
    requires next.stage.outcome == Reported(slot.stage.job, answer)
    ensures TicketsOk(next)
  {
    hide Handed, Says, Reported, Unseen, Apart, OnceEach, CleanupsOk, HistoryNumbered, AnswersOk, Numbered, Pending;
    hide Unanswered;
    CheckedShape(slot);
    CompletingShape(next);
    assert Numbered(slot, Unanswered(slot)[0]);
    RanNumbered(slot, next);
    RanPending(slot, next, answer);
    RanOnce(slot, next, answer);
    RanCleanups(slot, next, answer);
    RanAnswers(slot, next, answer);
    if slot.stage.job.original.None? { SaysRun(slot.history, slot.stage.job, answer); }
  }

  lemma CheckedShape(slot: Slot)
    requires slot.stage.Checked?
    ensures Pending(slot) == [slot.stage.job] + slot.queue && Unanswered(slot) == [slot.stage.job] + slot.queue
    ensures Pending(slot)[0] == slot.stage.job
  {
  }

  lemma CompletingShape(slot: Slot)
    requires slot.stage.Completing?
    ensures Pending(slot) == slot.queue && Unanswered(slot) == [slot.stage.job] + slot.queue
  {
  }

  lemma RanNumbered(slot: Slot, next: Slot)
    requires next.tickets == slot.tickets && next.answers == slot.answers && Unanswered(next) == Unanswered(slot)
    requires forall i | 0 <= i < |Unanswered(slot)| :: Numbered(slot, Unanswered(slot)[i])
    ensures forall i | 0 <= i < |Unanswered(next)| :: Numbered(next, Unanswered(next)[i])
  {
    hide Unanswered;
    forall i | 0 <= i < |Unanswered(next)|
      ensures Numbered(next, Unanswered(next)[i])
    {
      assert Numbered(slot, Unanswered(slot)[i]);
    }
  }

  lemma RanPending(slot: Slot, next: Slot, answer: Outcome)
    requires slot.stage.Checked? && Apart(Unanswered(slot))
    requires next.history == slot.history + [Ran(slot.stage.job, answer)]
    requires Pending(slot) == [slot.stage.job] + slot.queue && Unanswered(slot) == Pending(slot)
    requires Pending(next) == slot.queue
    requires forall i | 0 <= i < |Pending(slot)| :: Unseen(slot.history, Pending(slot)[i])
    ensures forall i | 0 <= i < |Pending(next)| :: Unseen(next.history, Pending(next)[i])
  {
    hide Unseen, Apart, Pending, Unanswered;
    forall i | 0 <= i < |slot.queue| ensures Unseen(next.history, slot.queue[i]) {
      assert slot.queue[i] == Pending(slot)[i + 1];
      RanUnseen(Pending(slot), i + 1, slot.history, answer);
    }
  }

  lemma RanUnseen(jobs: seq<Job>, i: nat, history: seq<Native>, answer: Outcome)
    requires 0 < i < |jobs| && Apart(jobs) && Unseen(history, jobs[i])
    ensures Unseen(history + [Ran(jobs[0], answer)], jobs[i])
  {
    hide Handed;
    HandedAppend(history, Ran(jobs[0], answer), jobs[i].client);
    assert forall j | 0 <= j < |history| :: (history + [Ran(jobs[0], answer)])[j] == history[j];
  }

  lemma RanOnce(slot: Slot, next: Slot, answer: Outcome)
    requires OnceEach(slot.history) && HistoryNumbered(slot) && slot.stage.Checked? && next.tickets == slot.tickets
    requires Numbered(slot, slot.stage.job) && Unseen(slot.history, slot.stage.job)
    requires next.history == slot.history + [Ran(slot.stage.job, answer)]
    ensures OnceEach(next.history) && HistoryNumbered(next)
  {
    hide Handed;
    assert forall j | 0 <= j < |slot.history| :: next.history[j] == slot.history[j];
  }

  lemma RanAnswers(slot: Slot, next: Slot, answer: Outcome)
    requires AnswersOk(slot) && slot.stage.Checked? && Numbered(slot, slot.stage.job)
    requires next.tickets == slot.tickets && next.answers == slot.answers
    requires next.history == slot.history + [Ran(slot.stage.job, answer)]
    ensures AnswersOk(next)
  {
    hide Says;
    forall n | n in next.answers ensures n < next.tickets && Says(next.history, n, next.answers[n]) {
      SaysStill(slot.history, Ran(slot.stage.job, answer), n, next.answers[n]);
    }
  }

  lemma RanCleanups(slot: Slot, next: Slot, answer: Outcome)
    requires CleanupsOk(slot) && Apart(Unanswered(slot)) && slot.stage.Checked? && Unanswered(next) == Unanswered(slot)
    requires next.history == slot.history + [Ran(slot.stage.job, answer)]
    ensures CleanupsOk(next)
  {
    hide Says;
    var jobs := Unanswered(slot);
    assert jobs[0] == slot.stage.job;
    forall i | 0 <= i < |jobs| && jobs[i].original.Some?
      ensures Says(next.history, jobs[i].client, Answer(Commit, jobs[i].token, jobs[i].original.value))
    {
      SaysStill(slot.history, Ran(slot.stage.job, answer), jobs[i].client,
                Answer(Commit, jobs[i].token, jobs[i].original.value));
    }
  }

  lemma ReportedNeverDisclaims(job: Job, outcome: Outcome)
    ensures !Disclaims(job.op, job.token, Reported(job, outcome))
  {
  }

  lemma ExecuteTickets(slot: Slot, outcome: Outcome)
    requires TicketsOk(slot)
    ensures TicketsOk(Execute(slot, outcome))
  {
    hide TicketsOk, Reported;
    if slot.stage.Checked? && slot.connected {
      var job := slot.stage.job;
      var ran := slot.(history := slot.history + [Ran(job, outcome)],
        stage := Completing(job, Reported(job, outcome)));
      RanTickets(slot, ran, outcome);
      var next := Execute(slot, outcome);
      if next.history == ran.history { SameTickets(ran, next); } else { QuietHistory(ran, next, Closed); }
    }
  }

  lemma SameTickets(slot: Slot, next: Slot)
    requires TicketsOk(slot) && next.stage == slot.stage && next.queue == slot.queue && next.history == slot.history
    requires next.tickets == slot.tickets && next.answers == slot.answers
    ensures TicketsOk(next)
  {
    hide OnceEach, Apart, Says, Unseen;
    assert Unanswered(next) == Unanswered(slot) && Pending(next) == Pending(slot);
  }
}
