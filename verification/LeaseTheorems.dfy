/** The registry, the dispatcher, and the theorems about every run of the lease machine. */
module LeaseTheorems {
  import opened ByteStrings
  import opened Results
  import opened Leases
  import opened LeaseRuns

  // ---- The registry holds exactly the leases -------------------------------------------------------

  predicate EntryOk(s: State, token: nat) {
    token in s.entries ==>
      var e := s.entries[token];
      && e.slot in s.slots && Addressable(e.slot) && token == Encode(e.slot, e.generation)
      && s.slots[e.slot].generation == e.generation && !s.slots[e.slot].mode.Idle?
      && (e.key != [] ==> e.key in s.keys && s.keys[e.key] == token)
  }

  predicate LeasedOk(s: State, id: SlotId) {
    id in s.slots && !s.slots[id].mode.Idle? ==>
      var token := Current(id, s.slots[id]);
      Addressable(id) && token in s.entries && s.entries[token].slot == id
        && s.entries[token].generation == s.slots[id].generation
  }

  predicate KeyOk(s: State, key: Bytes) {
    key in s.keys ==> key != [] && s.keys[key] in s.entries && s.entries[s.keys[key]].key == key
  }

  ghost predicate RegistryOk(s: State) {
    && (forall token :: EntryOk(s, token))
    && (forall id :: LeasedOk(s, id))
    && (forall key :: KeyOk(s, key))
  }

  predicate SlotOk(id: SlotId, slot: Slot) { LocalOk(id, slot) && TicketsOk(slot) }

  ghost predicate SlotsOk(s: State) { forall id | id in s.slots :: SlotOk(id, s.slots[id]) }

  ghost predicate Inv(s: State) { RegistryOk(s) && SlotsOk(s) }

  lemma NewSlotOk(id: SlotId)
    ensures SlotOk(id, NEW_SLOT)
  {
    assert Pending(NEW_SLOT) == [] && Unanswered(NEW_SLOT) == [];
  }

  lemma StartOk(ids: set<SlotId>)
    ensures Inv(Start(ids))
  {
    hide SlotOk;
    forall id | id in ids ensures SlotOk(id, NEW_SLOT) { NewSlotOk(id); }
  }

  // ---- One slot changes, its lease does not ------------------------------------------------------------

  lemma SlotMoves(s: State, id: SlotId, next: Slot)
    requires Inv(s) && id in s.slots && SlotOk(id, next)
    requires next.generation == s.slots[id].generation && (next.mode.Idle? <==> s.slots[id].mode.Idle?)
    ensures Inv(On(s, id, next))
  {
    hide SlotOk, Encode;
    var t := On(s, id, next);
    forall token ensures EntryOk(t, token) { assert EntryOk(s, token); }
    forall x ensures LeasedOk(t, x) { assert LeasedOk(s, x); }
    forall key ensures KeyOk(t, key) { assert KeyOk(s, key); }
  }

  // ---- Release ---------------------------------------------------------------------------------------------

  function Freed(id: SlotId, slot: Slot, token: nat): Slot {
    if !slot.mode.Idle? && token == Current(id, slot) then slot.(mode := Idle) else slot
  }

  lemma NamedToken(id: SlotId, token: nat)
    requires Names(id, token)
    ensures Addressable(id) && token == Encode(id, Decode(token).generation)
  {
    hide Decode, Encode;
    EncodeDecode(token);
  }

  /** Releasing a handle frees its slot exactly when it is the slot's current lease, and touches no other slot. */
  lemma ReleaseFrees(s: State, id: SlotId, token: nat)
    requires RegistryOk(s) && id in s.slots && Names(id, token)
    ensures Release(s, token).slots == s.slots[id := Freed(id, s.slots[id], token)]
    ensures RegistryOk(Release(s, token))
  {
    hide Decode, Encode, Names;
    var slot := s.slots[id];
    NamedToken(id, token);
    assert EntryOk(s, token) && LeasedOk(s, id);
    if token in s.entries {
      var e := s.entries[token];
      DecodeEncode(id, Decode(token).generation);
      DecodeEncode(e.slot, e.generation);
      assert e.slot == id && token == Current(id, slot);
      ReleaseRegistry(s, id, token);
    } else {
      assert s.slots[id := slot] == s.slots;
    }
  }

  lemma ReleaseRegistry(s: State, id: SlotId, token: nat)
    requires RegistryOk(s) && token in s.entries && id in s.slots && s.entries[token].slot == id
    requires s.entries[token].generation == s.slots[id].generation
    ensures RegistryOk(Release(s, token))
  {
    hide Encode;
    var t := Release(s, token);
    var key := s.entries[token].key;
    assert EntryOk(s, token);
    forall x ensures EntryOk(t, x) {
      assert EntryOk(s, x);
      if x in t.entries {
        SameSlotSameToken(s, x, token);
      }
    }
    forall x
      ensures LeasedOk(t, x)
    {
      assert LeasedOk(s, x);
      if x in t.slots && x != id && !t.slots[x].mode.Idle? { OtherToken(s, x, id); }
    }
    forall k ensures KeyOk(t, k) { assert KeyOk(s, k); }
  }

  /** A registered handle is its slot's current lease, and a release ends it. */
  lemma ReleaseKeeps(s: State, token: nat)
    requires RegistryOk(s) && token in s.entries
    ensures var e := s.entries[token]; e.slot in s.slots && s.slots[e.slot].generation == e.generation
    ensures RegistryOk(Release(s, token))
  {
    hide Encode;
    assert EntryOk(s, token);
    ReleaseRegistry(s, s.entries[token].slot, token);
  }

  lemma SameSlotSameToken(s: State, x: nat, y: nat)
    requires EntryOk(s, x) && EntryOk(s, y) && x in s.entries && y in s.entries && x != y
    ensures s.entries[x].slot != s.entries[y].slot
    ensures s.entries[x].key != [] ==> s.entries[x].key != s.entries[y].key
  {
    hide Encode;
  }

  lemma OtherToken(s: State, x: SlotId, y: SlotId)
    requires LeasedOk(s, x) && LeasedOk(s, y) && x in s.slots && y in s.slots && x != y && !s.slots[x].mode.Idle?
    requires !s.slots[y].mode.Idle?
    ensures Current(x, s.slots[x]) != Current(y, s.slots[y])
  {
    hide Encode;
  }

  /** Registry facts survive a slot change that keeps generation and lease. */
  lemma RegistryMoves(s: State, id: SlotId, next: Slot)
    requires RegistryOk(s) && id in s.slots
    requires next.generation == s.slots[id].generation && (next.mode.Idle? <==> s.slots[id].mode.Idle?)
    ensures RegistryOk(On(s, id, next))
  {
    hide Encode;
    var t := On(s, id, next);
    forall token ensures EntryOk(t, token) { assert EntryOk(s, token); }
    forall x ensures LeasedOk(t, x) { assert LeasedOk(s, x); }
    forall key ensures KeyOk(t, key) { assert KeyOk(s, key); }
  }

  // ---- Callbacks, on the slot alone -------------------------------------------------------------------------

  function Answered(slot: Slot, job: Job, outcome: Outcome): Slot {
    slot.(answers := slot.answers[job.client :=
      Answer(if job.original.Some? then Commit else job.op, job.token, outcome)])
  }

  function FinishSlot(id: SlotId, slot: Slot, job: Job, outcome: Outcome): Slot {
    if NeedsCleanup(job, outcome) then
      if slot.running then slot.(queue := slot.queue + [Cleanup(slot, job, outcome)], tickets := slot.tickets + 1)
      else Answered(Freed(id, slot, job.token), job, outcome)
    else
      Answered(if GivesBack(job, outcome) then Freed(id, slot, job.token) else slot, job,
               if job.original.Some? then job.original.value else outcome)
  }

  lemma FinishIs(s: State, id: SlotId, job: Job, outcome: Outcome)
    requires RegistryOk(s) && id in s.slots && JobOk(id, job)
    ensures Finish(s, id, job, outcome).slots == s.slots[id := FinishSlot(id, s.slots[id], job, outcome)]
    ensures RegistryOk(Finish(s, id, job, outcome))
  {
    hide RegistryOk, Release, Names, GivesBack, Cleanup;
    var slot := s.slots[id];
    if NeedsCleanup(job, outcome) && slot.running {
      RegistryMoves(s, id, FinishSlot(id, slot, job, outcome));
    } else {
      var gives := NeedsCleanup(job, outcome) || GivesBack(job, outcome);
      if gives {
        GivesBackToken(job, outcome);
        ReleaseFrees(s, id, job.token);
      }
      var freed := if gives then Release(s, job.token) else s;
      RegistryMoves(freed, id, FinishSlot(id, slot, job, outcome));
    }
  }

  lemma GivesBackToken(job: Job, outcome: Outcome)
    ensures GivesBack(job, outcome) ==> job.token != 0
  {
  }

  lemma RestLocal(id: SlotId, slot: Slot)
    requires LocalOk(id, slot) && slot.stage.Completing?
    ensures LocalOk(id, slot.(stage := Resting)) && JobOk(id, slot.stage.job)
  {
    hide Decode, Isolated, OpenIn, SessionUp, BeginQueued, Encode, GivesBack, AgesOk, GenerationAfter;
    var next := slot.(stage := Resting);
    assert Pending(next) == Pending(slot) == slot.queue && Unanswered(next) == slot.queue;
    assert Unanswered(slot) == [slot.stage.job] + slot.queue && Unanswered(slot)[0] == slot.stage.job;
    assert forall i | 0 <= i < |slot.queue| :: slot.queue[i] == Unanswered(slot)[i + 1];
    JobsKept(id, slot, next);
    if slot.running { RestAges(id, slot); }
  }

  /** Giving a lease back when its transaction is over. */
  lemma FreedLocal(id: SlotId, slot: Slot, token: nat)
    requires LocalOk(id, slot) && (slot.stage.Resting? || !slot.running)
    requires slot.running && !slot.mode.Idle? && token == Current(id, slot) ==>
      slot.active == 0 && !BeginQueued(Pending(slot), Current(id, slot))
    ensures LocalOk(id, Freed(id, slot, token))
  {
    hide Isolated, OpenIn, SessionUp, Encode, BeginQueued, Names, Around, Recent, GenerationAfter;
    var next := Freed(id, slot, token);
    assert Pending(next) == Pending(slot) && Unanswered(next) == Unanswered(slot);
    JobsKept(id, slot, next);
    if next != slot && slot.running { CarryNotQueued(Pending(slot), Current(id, slot)); }
  }

  /** Answers do not matter to the lease. */
  lemma AnsweredLocal(id: SlotId, slot: Slot, job: Job, outcome: Outcome)
    requires LocalOk(id, slot)
    ensures LocalOk(id, Answered(slot, job, outcome))
  {
    hide Isolated, OpenIn, SessionUp, LeaseOk, AgesOk, JobsOk, GenerationAfter;
    var next := Answered(slot, job, outcome);
    assert Unanswered(next) == Unanswered(slot);
    JobsKept(id, slot, next);
    if slot.running { SameLease(id, slot, next); SameAges(id, slot, next); }
  }

  /** A job with a handle joins the queue of any running slot without harm. */
  lemma AppendLocal(id: SlotId, slot: Slot, job: Job)
    requires LocalOk(id, slot) && slot.running && JobOk(id, job)
    requires !job.op.Begin? && (job.token == 0 ==> slot.mode.Idle?) && Recent(id, slot.acquired, job)
    ensures LocalOk(id, slot.(queue := slot.queue + [job], tickets := slot.tickets + 1))
  {
    hide Isolated, OpenIn, SessionUp, Encode, BeginQueued, Names, GivesBack, AgesOk, Recent, GenerationAfter;
    var next := slot.(queue := slot.queue + [job], tickets := slot.tickets + 1);
    assert Pending(next) == Pending(slot) + [job] && Unanswered(next) == Unanswered(slot) + [job];
    assert JobsOk(id, next) by { AppendJobs(id, slot, next, job); }
    AppendAges(id, slot, next, job);
    if Carries(job) { BeginAppend(Pending(slot), Current(id, slot), job); }
  }

  lemma AppendJobs(id: SlotId, slot: Slot, next: Slot, job: Job)
    requires JobsOk(id, slot) && JobOk(id, job) && Unanswered(next) == Unanswered(slot) + [job]
    ensures JobsOk(id, next)
  {
    hide Decode, Unanswered;
    forall i | 0 <= i < |Unanswered(next)| ensures JobOk(id, Unanswered(next)[i]) {
      if i < |Unanswered(slot)| { assert JobOk(id, Unanswered(slot)[i]); }
    }
  }

  lemma CompleteLocal(id: SlotId, slot: Slot)
    requires LocalOk(id, slot) && slot.stage.Completing?
    ensures LocalOk(id, FinishSlot(id, slot.(stage := Resting), slot.stage.job, slot.stage.outcome))
  {
    hide LocalOk, GivesBack, JobOk, Recent;
    var job, outcome := slot.stage.job, slot.stage.outcome;
    var rest := slot.(stage := Resting);
    RestLocal(id, slot);
    if NeedsCleanup(job, outcome) && slot.running {
      CleanupJob(id, rest, job, outcome);
      CleanupRecent(id, slot);
      AppendLocal(id, rest, Cleanup(rest, job, outcome));
    } else {
      CompletingLease(id, slot);
      if NeedsCleanup(job, outcome) || GivesBack(job, outcome) { FreedLocal(id, rest, job.token); }
      var freed := if NeedsCleanup(job, outcome) || GivesBack(job, outcome) then Freed(id, rest, job.token) else rest;
      AnsweredLocal(id, freed, job, if NeedsCleanup(job, outcome) || job.original.None? then outcome
        else job.original.value);
    }
  }

  lemma CleanupJob(id: SlotId, slot: Slot, job: Job, outcome: Outcome)
    requires JobOk(id, job) && NeedsCleanup(job, outcome)
    ensures var cleanup := Cleanup(slot, job, outcome); JobOk(id, cleanup) && !cleanup.op.Begin? && cleanup.token != 0
  {
    hide Names;
  }

  lemma CleanupRecent(id: SlotId, slot: Slot)
    requires LocalOk(id, slot) && slot.running && slot.stage.Completing?
    requires NeedsCleanup(slot.stage.job, slot.stage.outcome)
    requires JobOk(id, slot.stage.job)
    ensures var rest := slot.(stage := Resting);
      Recent(id, slot.acquired, Cleanup(rest, slot.stage.job, slot.stage.outcome))
  {
    hide JobsOk, WorkerOk, LeaseOk, AgesOk, Names, Recent, GenerationAfter;
    CleanupAge(id, slot, Cleanup(slot.(stage := Resting), slot.stage.job, slot.stage.outcome));
  }

  lemma CompletingLease(id: SlotId, slot: Slot)
    requires LocalOk(id, slot) && slot.stage.Completing?
    requires slot.running ==> !NeedsCleanup(slot.stage.job, slot.stage.outcome)
    ensures var rest := slot.(stage := Resting);
      slot.running && GivesBack(slot.stage.job, slot.stage.outcome) && !slot.mode.Idle?
        && slot.stage.job.token == Current(id, slot)
      ==> rest.active == 0 && !BeginQueued(Pending(rest), Current(id, rest))
  {
    hide Isolated, OpenIn, SessionUp, Encode, BeginQueued, JobsOk, GivesBack;
    assert Pending(slot.(stage := Resting)) == Pending(slot);
  }

  // ---- Tickets through callbacks ------------------------------------------------------------------------------

  /** The finished job is answered. */
  lemma AnswerTickets(slot: Slot, job: Job, outcome: Outcome)
    requires TicketsOk(slot) && job.client < slot.tickets && job.client !in slot.answers
    requires forall i | 0 <= i < |Unanswered(slot)| :: Unanswered(slot)[i].client != job.client
    requires Says(slot.history, job.client, Answer(if job.original.Some? then Commit else job.op, job.token, outcome))
    ensures TicketsOk(Answered(slot, job, outcome))
  {
    hide OnceEach, Apart, Says, Unseen;
    var next := Answered(slot, job, outcome);
    assert Unanswered(next) == Unanswered(slot) && Pending(next) == Pending(slot);
  }

  lemma AppendTickets(slot: Slot, job: Job)
    requires TicketsOk(slot) && job.ticket == slot.tickets
    requires job.original.None? ==> job.client == slot.tickets
    requires job.original.Some? ==>
      && job.client < slot.tickets && job.client !in slot.answers
      && (forall i | 0 <= i < |Unanswered(slot)| :: Unanswered(slot)[i].client != job.client)
      && Says(slot.history, job.client, Answer(Commit, job.token, job.original.value))
    ensures TicketsOk(slot.(queue := slot.queue + [job], tickets := slot.tickets + 1))
  {
    hide OnceEach, Says, Unseen, Handed;
    var next := slot.(queue := slot.queue + [job], tickets := slot.tickets + 1);
    assert Pending(next) == Pending(slot) + [job] && Unanswered(next) == Unanswered(slot) + [job];
    NewUnseen(slot, job);
    forall i | 0 <= i < |Unanswered(slot)| ensures Unanswered(slot)[i].ticket < slot.tickets
      && Unanswered(slot)[i].client < slot.tickets {
      assert Numbered(slot, Unanswered(slot)[i]);
    }
  }

  lemma NewUnseen(slot: Slot, job: Job)
    requires HistoryNumbered(slot) && job.ticket == slot.tickets && (job.original.None? ==> job.client == slot.tickets)
    ensures Unseen(slot.history, job)
  {
  }

  /** The completed job taken out of the worker's hands. */
  lemma RestTickets(slot: Slot)
    requires TicketsOk(slot) && slot.stage.Completing?
    ensures var rest := slot.(stage := Resting); var job := slot.stage.job;
      && TicketsOk(rest) && job.client < slot.tickets && job.client !in slot.answers
      && (forall i | 0 <= i < |Unanswered(rest)| :: Unanswered(rest)[i].client != job.client)
      && Says(slot.history, job.client,
              if job.original.Some? then Answer(Commit, job.token, job.original.value)
                else Answer(job.op, job.token, slot.stage.outcome))
  {
    hide OnceEach, Says, Unseen, HistoryNumbered, AnswersOk, CleanupsOk, Numbered, Unanswered, Pending;
    var rest := slot.(stage := Resting);
    RestShape(slot);
    assert Numbered(slot, Unanswered(slot)[0]);
    RestNumbered(slot);
    RestCleanups(slot);
    RestKept(slot);
  }

  lemma RestShape(slot: Slot)
    requires slot.stage.Completing?
    ensures Pending(slot.(stage := Resting)) == Pending(slot) == slot.queue
    ensures Unanswered(slot.(stage := Resting)) == slot.queue
    ensures Unanswered(slot) == [slot.stage.job] + slot.queue && Unanswered(slot)[0] == slot.stage.job
    ensures forall i | 0 <= i < |slot.queue| :: slot.queue[i] == Unanswered(slot)[i + 1]
  {
  }

  lemma RestNumbered(slot: Slot)
    requires !slot.stage.Resting? && Unanswered(slot) == [slot.stage.job] + slot.queue
    requires forall i | 0 <= i < |Unanswered(slot)| :: Numbered(slot, Unanswered(slot)[i])
    requires Apart(Unanswered(slot))
    ensures forall i | 0 <= i < |slot.queue| :: Numbered(slot.(stage := Resting), slot.queue[i])
    ensures slot.stage.job.client < slot.tickets && slot.stage.job.client !in slot.answers && Apart(slot.queue)
    ensures forall i | 0 <= i < |slot.queue| :: slot.queue[i].client != slot.stage.job.client
  {
    hide Unanswered;
    assert Unanswered(slot)[0] == slot.stage.job && forall i | 0 <= i < |slot.queue| ::
      slot.queue[i] == Unanswered(slot)[i + 1];
  }

  lemma RestCleanups(slot: Slot)
    requires CleanupsOk(slot) && slot.stage.Completing?
    ensures CleanupsOk(slot.(stage := Resting))
    ensures var job := slot.stage.job;
      job.original.Some? ==> Says(slot.history, job.client, Answer(Commit, job.token, job.original.value))
  {
    hide Says, Unanswered;
    RestShape(slot);
  }

  lemma RestKept(slot: Slot)
    requires HistoryNumbered(slot) && AnswersOk(slot)
    ensures HistoryNumbered(slot.(stage := Resting)) && AnswersOk(slot.(stage := Resting))
  {
    hide Says;
  }

  lemma FreedTickets(id: SlotId, slot: Slot, token: nat)
    requires TicketsOk(slot)
    ensures TicketsOk(Freed(id, slot, token))
  {
    hide TicketsOk;
    SameTickets(slot, Freed(id, slot, token));
  }

  lemma CompleteTickets(id: SlotId, slot: Slot)
    requires TicketsOk(slot) && slot.stage.Completing? && JobOk(id, slot.stage.job)
    ensures TicketsOk(FinishSlot(id, slot.(stage := Resting), slot.stage.job, slot.stage.outcome))
  {
    hide TicketsOk, GivesBack, Says, Names, Unanswered;
    var job, outcome := slot.stage.job, slot.stage.outcome;
    var rest := slot.(stage := Resting);
    RestTickets(slot);
    if NeedsCleanup(job, outcome) && slot.running {
      AppendTickets(rest, Cleanup(rest, job, outcome));
    } else {
      var freed := if NeedsCleanup(job, outcome) || GivesBack(job, outcome) then Freed(id, rest, job.token) else rest;
      FreedTickets(id, rest, job.token);
      FreedUnanswered(id, rest, job.token);
      AnswerTickets(freed, job, if NeedsCleanup(job, outcome) || job.original.None? then outcome
        else job.original.value);
    }
  }

  lemma FreedUnanswered(id: SlotId, slot: Slot, token: nat)
    ensures Unanswered(Freed(id, slot, token)) == Unanswered(slot) && Freed(id, slot, token).history == slot.history
    ensures Freed(id, slot, token).answers == slot.answers && Freed(id, slot, token).tickets == slot.tickets
  {
    hide Encode;
  }

  // ---- Complete -------------------------------------------------------------------------------------------------

  /** A slot and the registry change together. */
  lemma Lands(s: State, t: State, id: SlotId, next: Slot)
    requires SlotsOk(s) && id in s.slots && t.slots == s.slots[id := next] && SlotOk(id, next) && RegistryOk(t)
    ensures Inv(t)
  {
    hide SlotOk, RegistryOk;
  }

  lemma CompleteOk(s: State, id: SlotId)
    requires Inv(s) && id in s.slots
    ensures Inv(Complete(s, id))
  {
    hide RegistryOk, LocalOk, TicketsOk, FinishSlot, Finish, JobOk;
    var slot := s.slots[id];
    assert SlotOk(id, slot);
    if slot.stage.Completing? {
      var rest := slot.(stage := Resting);
      RestLocal(id, slot);
      RegistryMoves(s, id, rest);
      FinishIs(On(s, id, rest), id, slot.stage.job, slot.stage.outcome);
      CompleteLocal(id, slot);
      CompleteTickets(id, slot);
      var t := Complete(s, id);
      assert t.slots == s.slots[id := FinishSlot(id, rest, slot.stage.job, slot.stage.outcome)];
      Lands(s, t, id, FinishSlot(id, rest, slot.stage.job, slot.stage.outcome));
    }
  }

  // ---- Enqueue ---------------------------------------------------------------------------------------------------

  function NewJob(slot: Slot, op: Op, token: nat): Job { Job(slot.tickets, slot.tickets, op, token, None) }

  lemma CountedOk(id: SlotId, slot: Slot)
    requires LocalOk(id, slot) && TicketsOk(slot)
    ensures LocalOk(id, slot.(tickets := slot.tickets + 1)) && TicketsOk(slot.(tickets := slot.tickets + 1))
  {
    hide Isolated, OpenIn, SessionUp, LeaseOk, AgesOk, GenerationAfter, JobsOk, OnceEach, Apart, Says, Unseen;
    var next := slot.(tickets := slot.tickets + 1);
    assert Unanswered(next) == Unanswered(slot) && Pending(next) == Pending(slot);
    JobsKept(id, slot, next);
    if slot.running { SameLease(id, slot, next); SameAges(id, slot, next); }
  }

  /** A request that meets a stopped slot is answered at once. */
  lemma RefusedOk(id: SlotId, slot: Slot, op: Op, token: nat)
    requires LocalOk(id, slot) && TicketsOk(slot) && !slot.running && JobOk(id, NewJob(slot, op, token))
    ensures SlotOk(id, FinishSlot(id, slot.(tickets := slot.tickets + 1), NewJob(slot, op, token), STOPPED))
  {
    hide LocalOk, TicketsOk, GivesBack, JobOk, Says;
    var counted := slot.(tickets := slot.tickets + 1);
    var job := NewJob(slot, op, token);
    CountedOk(id, slot);
    FreedLocal(id, counted, token);
    FreedTickets(id, counted, token);
    FreedUnanswered(id, counted, token);
    var freed := if NeedsCleanup(job, STOPPED) || GivesBack(job, STOPPED) then Freed(id, counted, token) else counted;
    AnsweredLocal(id, freed, job, STOPPED);
    FreshClient(slot);
    assert Unanswered(counted) == Unanswered(slot);
    NotHanded(freed.history, job, STOPPED);
    AnswerTickets(freed, job, STOPPED);
  }

  lemma FreshClient(slot: Slot)
    requires TicketsOk(slot)
    ensures slot.tickets !in slot.answers && !Handed(slot.history, slot.tickets)
    ensures forall i | 0 <= i < |Unanswered(slot)| :: Unanswered(slot)[i].client != slot.tickets
    ensures forall op, token :: Unseen(slot.history, NewJob(slot, op, token))
  {
    hide OnceEach, Apart, Says, CleanupsOk;
    forall i | 0 <= i < |Unanswered(slot)|
      ensures Unanswered(slot)[i].client != slot.tickets
    {
      assert Numbered(slot, Unanswered(slot)[i]);
    }
  }

  function EnqueueSlot(id: SlotId, slot: Slot, op: Op, token: nat): Slot {
    if slot.running then slot.(queue := slot.queue + [NewJob(slot, op, token)], tickets := slot.tickets + 1)
    else FinishSlot(id, slot.(tickets := slot.tickets + 1), NewJob(slot, op, token), STOPPED)
  }

  lemma EnqueueIs(s: State, id: SlotId, op: Op, token: nat)
    requires RegistryOk(s) && id in s.slots && JobOk(id, NewJob(s.slots[id], op, token))
    ensures Enqueue(s, id, op, token).slots == s.slots[id := EnqueueSlot(id, s.slots[id], op, token)]
    ensures RegistryOk(Enqueue(s, id, op, token))
  {
    hide RegistryOk, Finish, FinishSlot, Decode;
    var slot := s.slots[id];
    if slot.running {
      RegistryMoves(s, id, EnqueueSlot(id, slot, op, token));
    } else {
      var counted := slot.(tickets := slot.tickets + 1);
      RegistryMoves(s, id, counted);
      FinishIs(On(s, id, counted), id, NewJob(slot, op, token), STOPPED);
    }
  }

  /** A request that may join this slot's queue. */
  predicate Joins(id: SlotId, slot: Slot, op: Op, token: nat) {
    && !op.Begin? && JobOk(id, NewJob(slot, op, token)) && (token == 0 ==> slot.mode.Idle?)
    && Recent(id, slot.acquired, NewJob(slot, op, token))
  }

  lemma EnqueueOk(s: State, id: SlotId, op: Op, token: nat)
    requires Inv(s) && id in s.slots && Joins(id, s.slots[id], op, token)
    ensures Inv(Enqueue(s, id, op, token))
  {
    hide RegistryOk, LocalOk, TicketsOk, FinishSlot, Enqueue, JobOk, Recent;
    var slot := s.slots[id];
    assert SlotOk(id, slot);
    EnqueueIs(s, id, op, token);
    if slot.running {
      AppendLocal(id, slot, NewJob(slot, op, token));
      AppendTickets(slot, NewJob(slot, op, token));
    } else {
      RefusedOk(id, slot, op, token);
    }
    Lands(s, Enqueue(s, id, op, token), id, EnqueueSlot(id, slot, op, token));
  }

  // ---- Dispatcher messages --------------------------------------------------------------------------------------

  lemma RegularOk(s: State, id: SlotId, op: Op)
    requires Inv(s) && (op.Query? || op.Exec?)
    ensures Inv(DispatchRegular(s, id, op))
  {
    hide Inv, Enqueue;
    if id in s.slots && s.slots[id].running && s.slots[id].mode.Idle? { EnqueueOk(s, id, op, 0); }
  }

  lemma RoutedNames(s: State, token: nat)
    requires SlotsOk(s) && Route(s, token).Some? && !s.slots[Route(s, token).value].mode.Idle?
    ensures var id := Route(s, token).value; Names(id, token) && token == Current(id, s.slots[id]) && token != 0
    ensures var id := Route(s, token).value; s.slots[id].acquired > 0 && token == Handle(id, s.slots[id].acquired)
  {
    hide JobsOk, WorkerOk, LeaseOk, AgesOk, TicketsOk, GenerationAfter;
    var id := Route(s, token).value;
    assert SlotOk(id, s.slots[id]);
    EncodeDecode(token);
    GenerationPositive(s.slots[id].acquired);
    EncodePositive(id, s.slots[id].generation);
  }

  lemma TransactionOk(s: State, token: nat, op: Op)
    requires Inv(s) && (op.Query? || op.Exec?)
    ensures Inv(DispatchTransaction(s, token, op))
  {
    hide RegistryOk, SlotsOk, Enqueue, Names, Handle;
    if Route(s, token).Some? && s.slots[Route(s, token).value].mode.Active? {
      RoutedNames(s, token);
      EnqueueOk(s, Route(s, token).value, op, token);
    }
  }

  lemma ClosingOk(s: State, id: SlotId)
    requires Inv(s) && id in s.slots && s.slots[id].mode.Active?
    ensures Inv(On(s, id, s.slots[id].(mode := Closing)))
  {
    hide RegistryOk, Isolated, OpenIn, SessionUp, BeginQueued, TicketsOk, JobsOk, Encode, AgesOk, GenerationAfter;
    var slot := s.slots[id];
    var next := slot.(mode := Closing);
    assert SlotOk(id, slot);
    assert Unanswered(next) == Unanswered(slot) && Pending(next) == Pending(slot);
    JobsKept(id, slot, next);
    SameTickets(slot, next);
    if slot.running { SameAges(id, slot, next); }
    SlotMoves(s, id, next);
  }

  lemma FinishOk(s: State, token: nat, op: Op)
    requires Inv(s) && (op.Commit? || op.Rollback?)
    ensures Inv(DispatchFinish(s, token, op))
  {
    hide RegistryOk, SlotsOk, Enqueue, Decode, Encode, Handle;
    if Route(s, token).Some? && s.slots[Route(s, token).value].mode.Active? {
      var id := Route(s, token).value;
      RoutedNames(s, token);
      ClosingOk(s, id);
      EnqueueOk(On(s, id, s.slots[id].(mode := Closing)), id, op, token);
    }
  }

  lemma StopOk(s: State, id: SlotId)
    requires Inv(s) && id in s.slots
    ensures Inv(On(s, id, s.slots[id].(running := false)))
  {
    hide RegistryOk, Isolated, OpenIn, SessionUp, LeaseOk, AgesOk, GenerationAfter, TicketsOk, JobsOk;
    var slot := s.slots[id];
    var next := slot.(running := false);
    assert SlotOk(id, slot);
    assert Unanswered(next) == Unanswered(slot);
    JobsKept(id, slot, next);
    SameTickets(slot, next);
    SlotMoves(s, id, next);
  }

  // ---- BEGIN ------------------------------------------------------------------------------------------------------

  /** The slot under its next lease. */
  function Leased(slot: Slot): Slot {
    slot.(mode := Active, generation := NextGeneration(slot.generation), acquired := slot.acquired + 1)
  }

  lemma LeasedIs(id: SlotId, slot: Slot)
    requires slot.generation == GenerationAfter(slot.acquired)
    ensures var leased := Leased(slot);
      leased.generation == GenerationAfter(leased.acquired) > 0 && Current(id, leased) == Handle(id, leased.acquired)
  {
    hide NextGeneration;
    assert GenerationAfter(slot.acquired + 1) == NextGeneration(GenerationAfter(slot.acquired));
    GenerationPositive(slot.acquired + 1);
  }

  /** A new lease on an idle running slot: no transaction is open, and nothing queued knows the new handle. */
  lemma LeasedLocal(id: SlotId, slot: Slot)
    requires LocalOk(id, slot) && slot.running && slot.mode.Idle? && Addressable(id)
    ensures var leased := Leased(slot); LocalOk(id, EnqueueSlot(id, leased, Begin, Current(id, leased)))
  {
    hide Isolated, OpenIn, SessionUp, BeginQueued, Encode, Decode, GivesBack, GenerationAfter, NextGeneration;
    hide Recent, Around;
    var leased := Leased(slot);
    var token := Current(id, leased);
    var job := NewJob(leased, Begin, token);
    var next := EnqueueSlot(id, leased, Begin, token);
    LeasedIs(id, slot);
    DecodeEncode(id, leased.generation);
    EncodePositive(id, leased.generation);
    assert Unanswered(leased) == Unanswered(slot) && Pending(leased) == Pending(slot);
    JobsKept(id, slot, leased);
    assert Unanswered(next) == Unanswered(leased) + [job] && Pending(next) == Pending(slot) + [job];
    AppendJobs(id, leased, next, job);
    NewHandleUnknown(id, slot, token);
    BeginStandsLast(Pending(slot), job, token);
    if slot.stage.Completing? { assert Unanswered(slot)[0] == slot.stage.job; }
    PendingRecent(id, slot);
    AroundBegin(id, slot.acquired, Pending(slot), job);
  }

  lemma PendingRecent(id: SlotId, slot: Slot)
    requires AllRecent(id, slot.acquired, Unanswered(slot))
    ensures AllRecent(id, slot.acquired, Pending(slot))
  {
    hide Recent;
    var shift := |Unanswered(slot)| - |Pending(slot)|;
    forall i | 0 <= i < |Pending(slot)|
      ensures Recent(id, slot.acquired, Pending(slot)[i])
    {
      assert Pending(slot)[i] == Unanswered(slot)[i + shift];
    }
  }

  /** No job in front of the worker carries the handle about to be given out, whether or not the counter has wrapped. */
  lemma NewHandleUnknown(id: SlotId, slot: Slot, token: nat)
    requires AllRecent(id, slot.acquired, Unanswered(slot)) && Addressable(id) && token == Handle(id, slot.acquired + 1)
    ensures forall i | 0 <= i < |Unanswered(slot)| :: Unanswered(slot)[i].token != token
    ensures forall i | 0 <= i < |Pending(slot)| :: Pending(slot)[i].token != token
  {
    hide Recent, Unanswered, Pending, Handle;
    PendingRecent(id, slot);
    forall i | 0 <= i < |Unanswered(slot)|
      ensures Unanswered(slot)[i].token != token
    {
      RecentIsOther(id, slot.acquired, Unanswered(slot)[i]);
    }
    forall i | 0 <= i < |Pending(slot)|
      ensures Pending(slot)[i].token != token
    {
      RecentIsOther(id, slot.acquired, Pending(slot)[i]);
    }
  }

  lemma RecentIsOther(id: SlotId, n: nat, job: Job)
    requires Addressable(id) && Recent(id, n, job)
    ensures job.token != Handle(id, n + 1)
  {
    hide Encode, GenerationAfter;
    GenerationPositive(n + 1);
    EncodePositive(id, GenerationAfter(n + 1));
    if n > 0 { HandlesApart(id, n, n + 1); }
    if n > 1 { HandlesApart(id, n - 1, n + 1); }
  }

  lemma BeginStandsLast(jobs: seq<Job>, job: Job, token: nat)
    requires NoBegin(jobs) && job.op.Begin? && job.token == token
    requires forall i | 0 <= i < |jobs| :: jobs[i].token != token
    ensures BeginQueued(jobs + [job], token)
  {
    assert BeginStands(jobs + [job], token, |jobs|);
  }

  lemma LeasedTickets(id: SlotId, slot: Slot, leased: Slot, token: nat)
    requires TicketsOk(slot) && slot.running
    requires leased == slot.(mode := Active, generation := leased.generation, acquired := leased.acquired)
    ensures TicketsOk(EnqueueSlot(id, leased, Begin, token))
  {
    hide TicketsOk;
    SameTickets(slot, leased);
    AppendTickets(leased, NewJob(leased, Begin, token));
  }

  /** The new handle enters the registry. */
  lemma LeaseRegistered(s: State, id: SlotId, next: Slot, key: Bytes, t: State)
    requires RegistryOk(s) && id in s.slots && s.slots[id].mode.Idle? && Addressable(id)
    requires key == [] || key !in s.keys
    requires next.mode.Active?
    requires var token := Current(id, next);
      t == State(s.slots[id := next], s.entries[token := Entry(id, next.generation, key)], if key != []
        then s.keys[key := token] else s.keys)
    requires Current(id, next) !in s.entries
    ensures RegistryOk(t)
  {
    hide Encode;
    var token := Current(id, next);
    forall x
      ensures EntryOk(t, x)
    {
      assert EntryOk(s, x);
      if x in s.entries { assert s.entries[x].key != [] ==> s.entries[x].key in s.keys; }
    }
    forall x ensures LeasedOk(t, x) { assert LeasedOk(s, x); }
    forall k ensures KeyOk(t, k) { assert KeyOk(s, k); }
  }

  /** No entry of the registry names an idle slot. */
  lemma NewHandleFree(s: State, id: SlotId, generation: nat)
    requires RegistryOk(s) && id in s.slots && Addressable(id) && s.slots[id].mode.Idle?
    ensures Encode(id, generation) !in s.entries
  {
    hide Decode, Encode;
    var token := Encode(id, generation);
    assert EntryOk(s, token);
    DecodeEncode(id, generation);
    if token in s.entries { DecodeEncode(s.entries[token].slot, s.entries[token].generation); }
  }

  lemma BeginOk(s: State, id: SlotId, key: Bytes)
    requires Inv(s)
    ensures Inv(DispatchBegin(s, id, key))
  {
    hide RegistryOk, SlotsOk, LocalOk, TicketsOk, Encode, NextGeneration;
    if id in s.slots && (key == [] || key !in s.keys) && id.pool < INDEXES && s.slots[id].running
      && s.slots[id].mode.Idle? {
      if id.index >= INDEXES {
        SkippedOk(s, id);
      } else {
        NewHandleFree(s, id, NextGeneration(s.slots[id].generation));
        GrantedOk(s, id, key);
      }
    }
  }

  /** An idle slot has no handle in the registry, whatever its generation. */
  lemma RegistrySkips(s: State, id: SlotId, next: Slot)
    requires RegistryOk(s) && id in s.slots && s.slots[id].mode.Idle? && next.mode.Idle?
    ensures RegistryOk(On(s, id, next))
  {
    hide Encode;
    var t := On(s, id, next);
    forall x ensures EntryOk(t, x) { assert EntryOk(s, x); }
    forall x ensures LeasedOk(t, x) { assert LeasedOk(s, x); }
    forall k ensures KeyOk(t, k) { assert KeyOk(s, k); }
  }

  /** A slot beyond the handle's reach is acquired and given back: only its generation moves. */
  lemma SkippedOk(s: State, id: SlotId)
    requires Inv(s) && id in s.slots && s.slots[id].mode.Idle? && s.slots[id].running && id.index >= INDEXES
    ensures Inv(On(s, id, s.slots[id].(generation := NextGeneration(s.slots[id].generation),
      acquired := s.slots[id].acquired + 1)))
  {
    hide RegistryOk, Isolated, OpenIn, SessionUp, TicketsOk, Encode, JobsOk, NoBegin, AllRecent, GenerationAfter;
    hide NextGeneration;
    var slot := s.slots[id];
    var next := slot.(generation := NextGeneration(slot.generation), acquired := slot.acquired + 1);
    assert SlotOk(id, slot);
    LeasedIs(id, slot);
    assert Unanswered(next) == Unanswered(slot) && Pending(next) == Pending(slot);
    JobsKept(id, slot, next);
    SameTickets(slot, next);
    NoHandles(id, next);
    RegistrySkips(s, id, next);
    Lands(s, On(s, id, next), id, next);
  }

  lemma NoHandles(id: SlotId, slot: Slot)
    requires JobsOk(id, slot) && id.index >= INDEXES
    ensures AllRecent(id, slot.acquired, Unanswered(slot))
  {
    hide Unanswered, Handle;
    forall i | 0 <= i < |Unanswered(slot)|
      ensures Recent(id, slot.acquired, Unanswered(slot)[i])
    {
      assert JobOk(id, Unanswered(slot)[i]);
    }
  }

  lemma GrantedOk(s: State, id: SlotId, key: Bytes)
    requires Inv(s) && id in s.slots && (key == [] || key !in s.keys) && Addressable(id) && s.slots[id].running
    requires s.slots[id].mode.Idle?
    requires Encode(id, NextGeneration(s.slots[id].generation)) !in s.entries
    ensures Inv(DispatchBegin(s, id, key))
  {
    hide RegistryOk, LocalOk, TicketsOk, Encode, NextGeneration;
    var slot := s.slots[id];
    assert SlotOk(id, slot);
    var leased := Leased(slot);
    var token := Current(id, leased);
    var next := EnqueueSlot(id, leased, Begin, token);
    LeasedLocal(id, slot);
    LeasedTickets(id, slot, leased, token);
    var t := DispatchBegin(s, id, key);
    assert t.slots == s.slots[id := next];
    LeaseRegistered(s, id, next, key, t);
    Lands(s, t, id, next);
  }

  // ---- Every event, every run -------------------------------------------------------------------------------------

  lemma WorkerStepOk(s: State, e: Event)
    requires Inv(s) && (e.TakeAt? || e.ConnectAt? || e.ExecuteAt? || e.LeaveAt?) && e.slot in s.slots
    ensures Inv(Next(s, e))
  {
    hide RegistryOk, LocalOk, TicketsOk;
    var id := e.slot;
    var slot := s.slots[id];
    assert SlotOk(id, slot);
    match e
    case TakeAt(_) => TakeOk(id, slot); TakeTickets(slot); SlotMoves(s, id, Take(slot));
    case ConnectAt(_, outcome) =>
      ConnectOk(id, slot, outcome);
      ConnectTickets(slot, outcome);
      SlotMoves(s, id, Connect(slot, outcome));
    case ExecuteAt(_, outcome) =>
      ExecuteOk(id, slot, outcome);
      ExecuteTickets(slot, outcome);
      SlotMoves(s, id, Execute(slot, outcome));
    case LeaveAt(_) => LeaveOk(id, slot); LeaveTickets(slot); SlotMoves(s, id, Leave(slot));
  }

  lemma NextOk(s: State, e: Event)
    requires Inv(s)
    ensures Inv(Next(s, e))
  {
    hide Inv, DispatchRegular, DispatchBegin, DispatchTransaction, DispatchFinish, Complete, On, Take, Connect;
    hide Execute, Leave;
    match e
    case Regular(id, op) => if op.Query? || op.Exec? { RegularOk(s, id, op); }
    case BeginAt(id, key) => BeginOk(s, id, key);
    case InTransaction(token, op) => if op.Query? || op.Exec? { TransactionOk(s, token, op); }
    case End(token, op) => if op.Commit? || op.Rollback? { FinishOk(s, token, op); }
    case Cancel(key) => if key in s.keys { FinishOk(s, s.keys[key], Rollback); }
    case Stop(id) => if id in s.slots { StopOk(s, id); }
    case CompleteAt(id) => if id in s.slots { CompleteOk(s, id); }
    case _ => if e.slot in s.slots { WorkerStepOk(s, e); }
  }

  lemma {:induction false} RunOk(ids: set<SlotId>, events: seq<Event>)
    ensures Inv(Run(Start(ids), events))
  {
    hide Inv, Next;
    if events == [] {
      StartOk(ids);
    } else {
      var before := Run(Start(ids), events[..|events| - 1]);
      RunOk(ids, events[..|events| - 1]);
      NextOk(before, events[|events| - 1]);
    }
  }

  // ---- Theorems ---------------------------------------------------------------------------------------------------

  /**
   On every slot the driver sees transactions as blocks: between a successful BEGIN and the end of
   its transaction or session come only jobs with its handle, and no job with a handle comes elsewhere.
   No job reaches the driver twice, and the worker's active transaction is the one open on its session.
   */
  lemma LeaseIsolation(ids: set<SlotId>, events: seq<Event>, id: SlotId)
    requires id in Run(Start(ids), events).slots
    ensures var slot := Run(Start(ids), events).slots[id];
      && Isolated(slot.history) && OnceEach(slot.history)
      && (slot.active != 0 ==> SessionUp(slot.history) && OpenIn(slot.history) == Some(slot.active))
  {
    hide Run, RegistryOk, JobsOk, LeaseOk, AgesOk, GenerationAfter, Isolated, SessionUp, OpenIn, OnceEach;
    RunOk(ids, events);
    assert SlotOk(id, Run(Start(ids), events).slots[id]);
  }

  /**
   A job without a handle, or another BEGIN, comes after a successful BEGIN only once that transaction or its session
   has ended.
   */
  lemma NothingBetween(history: seq<Native>, i: nat, j: nat)
    requires Isolated(history) && i < j < |history| && history[i].Ran? && history[i].answer.ok
    requires history[i].job.op.Begin?
    requires history[j].Ran? && (history[j].job.token == 0 || history[j].job.op.Begin?)
    ensures exists k | i < k < j :: Ends(history, i, k)
  {
    assert Fits(history[..j], history[j]);
    if forall k | i < k < j :: !Ends(history, i, k) {
      StillOpen(history, i, j);
    }
  }

  predicate Ends(history: seq<Native>, i: nat, k: nat)
    requires i < |history| && k < |history| && history[i].Ran?
  {
    || history[k].Closed? || history[k].Connected?
    || (history[k].Ran? && history[k].answer.ok && history[k].job.token == history[i].job.token
      && (history[k].job.op.Commit? || history[k].job.op.Rollback?))
  }

  lemma {:induction false} StillOpen(history: seq<Native>, i: nat, j: nat)
    requires Isolated(history) && i < j <= |history| && history[i].Ran? && history[i].answer.ok
    requires history[i].job.op.Begin?
    requires forall k | i < k < j :: !Ends(history, i, k)
    ensures OpenIn(history[..j]) == Some(history[i].job.token)
  {
    hide Isolated;
    var n := j - 1;
    assert history[..j][..n] == history[..n] && history[..j][n] == history[n];
    if i < n {
      StillOpen(history, i, n);
      assert !Ends(history, i, n);
      FitsAt(history, n);
    }
  }

  lemma FitsAt(history: seq<Native>, n: nat)
    requires Isolated(history) && n < |history|
    ensures Fits(history[..n], history[n])
  {
    hide Fits;
  }

  /** The registry's handles are exactly the current handles of the slots that are not idle. */
  lemma RegistryExact(ids: set<SlotId>, events: seq<Event>, token: nat)
    ensures var s := Run(Start(ids), events);
      token in s.entries <==> exists id | id in s.slots :: !s.slots[id].mode.Idle? && token == Current(id, s.slots[id])
  {
    hide Run, SlotsOk, Encode;
    RunOk(ids, events);
    var s := Run(Start(ids), events);
    assert EntryOk(s, token);
    if token in s.entries {
      var id := s.entries[token].slot;
      assert id in s.slots && !s.slots[id].mode.Idle? && token == Current(id, s.slots[id]);
    }
    forall id | id in s.slots && !s.slots[id].mode.Idle? && token == Current(id, s.slots[id])
      ensures token in s.entries
    {
      assert LeasedOk(s, id);
    }
  }

  lemma RegisteredRoutes(s: State, token: nat)
    requires RegistryOk(s)
    ensures (Route(s, token).Some? && !s.slots[Route(s, token).value].mode.Idle?) <==> token in s.entries
    ensures token in s.entries ==> Route(s, token) == Some(s.entries[token].slot) && s.entries[token].slot in s.slots
  {
    hide Decode, Encode;
    assert EntryOk(s, token);
    if token in s.entries { DecodeEncode(s.entries[token].slot, s.entries[token].generation); }
    if Route(s, token).Some? && !s.slots[Route(s, token).value].mode.Idle? {
      EncodeDecode(token);
      assert LeasedOk(s, Route(s, token).value);
    }
  }

  /** A handle routes only while it is registered, that is, while it is its slot's current lease. */
  lemma RoutesOnlyCurrent(ids: set<SlotId>, events: seq<Event>, token: nat)
    ensures var s := Run(Start(ids), events);
      (Route(s, token).Some? && !s.slots[Route(s, token).value].mode.Idle?) <==> token in s.entries
  {
    hide Run, RegistryOk, SlotsOk, Decode;
    RunOk(ids, events);
    RegisteredRoutes(Run(Start(ids), events), token);
  }

  /** Releasing a handle late or again changes nothing: only its slot's current lease is ever freed. */
  lemma LateReleaseHarmless(ids: set<SlotId>, events: seq<Event>, id: SlotId, token: nat)
    requires id in Run(Start(ids), events).slots
    requires Names(id, token)
    ensures var s := Run(Start(ids), events); var t := Release(s, token);
      && (s.slots[id].mode.Idle? || token != Current(id, s.slots[id]) ==> t == s)
      && t.slots == s.slots[id := Freed(id, s.slots[id], token)]
      && Release(t, token) == t
  {
    hide Run, SlotsOk, Decode, Encode, Names;
    RunOk(ids, events);
    var s := Run(Start(ids), events);
    ReleaseFrees(s, id, token);
    RegistryExact(ids, events, token);
    NamedToken(id, token);
    assert EntryOk(s, token);
    if token in s.entries {
      DecodeEncode(id, Decode(token).generation);
      DecodeEncode(s.entries[token].slot, s.entries[token].generation);
    }
  }

  /** The client is told what the driver said, a doubtful end of a write as unknown, a nameless failure as SQL's. */
  predicate Reports(job: Job, answer: Outcome, a: Answer) {
    && a.op == job.op && a.token == job.token && a.outcome.ok == answer.ok
    && if answer.ok || answer.code.SqlError? then a.outcome == answer
       else if answer.code.NoError? then a.outcome.code.SqlError?
       else if job.op.Commit? || (job.op.Exec? && job.token == 0) then a.outcome.code.OutcomeUnknown?
       else a.outcome == answer
  }

  /**
   Over every run, an answer tells what the driver did with the request itself: if it ran, the answer is
   the report of that run, whatever a cleanup did later; if it never ran, the answer is a failure.
   */
  lemma AnswersExact(ids: set<SlotId>, events: seq<Event>, id: SlotId, client: nat)
    requires id in Run(Start(ids), events).slots && client in Run(Start(ids), events).slots[id].answers
    ensures var slot := Run(Start(ids), events).slots[id]; var a := slot.answers[client];
      && (a.outcome.ok <==> exists i | 0 <= i < |slot.history| ::
        OwnRun(slot.history[i], client) && slot.history[i].answer.ok)
      && (forall i | 0 <= i < |slot.history| && OwnRun(slot.history[i], client) ::
            Reports(slot.history[i].job, slot.history[i].answer, a))
  {
    hide Run, RegistryOk, JobsOk, LeaseOk, AgesOk, GenerationAfter, Isolated, SessionUp, OpenIn, OnceEach;
    RunOk(ids, events);
    var slot := Run(Start(ids), events).slots[id];
    assert SlotOk(id, slot);
    assert Says(slot.history, client, slot.answers[client]);
  }

  /** A COMMIT or token-free write answered as not attempted was never handed to the driver, and never will be. */
  lemma AnswersAreTrue(ids: set<SlotId>, events: seq<Event>, id: SlotId, client: nat)
    requires id in Run(Start(ids), events).slots
    requires client in Run(Start(ids), events).slots[id].answers
    ensures var slot := Run(Start(ids), events).slots[id]; var a := slot.answers[client];
      Disclaims(a.op, a.token, a.outcome) ==> !Handed(slot.history, client)
  {
    hide Run, RegistryOk, JobsOk, LeaseOk, AgesOk, GenerationAfter, Isolated, SessionUp, OpenIn, OnceEach, Reported;
    RunOk(ids, events);
    var slot := Run(Start(ids), events).slots[id];
    assert SlotOk(id, slot);
    assert Says(slot.history, client, slot.answers[client]);
    forall i | 0 <= i < |slot.history| && OwnRun(slot.history[i], client)
      ensures !Disclaims(slot.answers[client].op, slot.answers[client].token, slot.answers[client].outcome)
    {
      ReportedNeverDisclaims(slot.history[i].job, slot.history[i].answer);
    }
  }

  // ---- Answers are given once -------------------------------------------------------------------------------------

  predicate KeepsAnswers(a: Slot, b: Slot) {
    forall n | n in a.answers :: n in b.answers && b.answers[n] == a.answers[n]
  }

  lemma FinishKeeps(id: SlotId, slot: Slot, job: Job, outcome: Outcome)
    requires job.client !in slot.answers
    ensures KeepsAnswers(slot, FinishSlot(id, slot, job, outcome))
  {
    hide GivesBack, Encode;
  }

  lemma EnqueueKeeps(s: State, id: SlotId, op: Op, token: nat, x: SlotId)
    requires Inv(s) && id in s.slots && x in s.slots && JobOk(id, NewJob(s.slots[id], op, token))
    ensures x in Enqueue(s, id, op, token).slots && KeepsAnswers(s.slots[x], Enqueue(s, id, op, token).slots[x])
  {
    hide RegistryOk, Enqueue, FinishSlot, LocalOk, JobOk, TicketsOk;
    var slot := s.slots[id];
    assert SlotOk(id, slot);
    EnqueueIs(s, id, op, token);
    FreshClient(slot);
    FinishKeeps(id, slot.(tickets := slot.tickets + 1), NewJob(slot, op, token), STOPPED);
  }

  lemma CompleteKeeps(s: State, id: SlotId, x: SlotId)
    requires Inv(s) && id in s.slots && x in s.slots
    ensures x in Complete(s, id).slots && KeepsAnswers(s.slots[x], Complete(s, id).slots[x])
  {
    hide RegistryOk, LocalOk, TicketsOk, FinishSlot, Finish, JobOk, Says;
    var slot := s.slots[id];
    assert SlotOk(id, slot);
    if slot.stage.Completing? {
      var rest := slot.(stage := Resting);
      RestLocal(id, slot);
      RestTickets(slot);
      RegistryMoves(s, id, rest);
      FinishIs(On(s, id, rest), id, slot.stage.job, slot.stage.outcome);
      FinishKeeps(id, rest, slot.stage.job, slot.stage.outcome);
      assert Complete(s, id).slots == s.slots[id := FinishSlot(id, rest, slot.stage.job, slot.stage.outcome)];
    }
  }

  lemma RoutedKeeps(s: State, token: nat, op: Op, x: SlotId, closing: bool)
    requires Inv(s) && x in s.slots && !op.Begin?
    ensures var t := if closing then DispatchFinish(s, token, op) else DispatchTransaction(s, token, op);
      x in t.slots && KeepsAnswers(s.slots[x], t.slots[x])
  {
    hide RegistryOk, SlotsOk, Enqueue, Decode, Encode;
    if Route(s, token).Some? && s.slots[Route(s, token).value].mode.Active? {
      var id := Route(s, token).value;
      RoutedNames(s, token);
      ClosingOk(s, id);
      if closing {
        EnqueueKeeps(On(s, id, s.slots[id].(mode := Closing)), id, op, token, x);
      } else {
        EnqueueKeeps(s, id, op, token, x);
      }
    }
  }

  lemma BeginKeeps(s: State, id: SlotId, key: Bytes, x: SlotId)
    requires x in s.slots
    ensures x in DispatchBegin(s, id, key).slots && KeepsAnswers(s.slots[x], DispatchBegin(s, id, key).slots[x])
  {
    hide Encode, NextGeneration, Finish;
  }

  /** Every client is answered at most once: no event changes an answer already given. */
  lemma AnsweredOnce(ids: set<SlotId>, events: seq<Event>, e: Event, id: SlotId)
    requires id in Run(Start(ids), events).slots
    ensures var s := Run(Start(ids), events); var t := Next(s, e);
      id in t.slots && KeepsAnswers(s.slots[id], t.slots[id])
  {
    hide Run, Inv, DispatchRegular, DispatchBegin, DispatchTransaction, DispatchFinish, Complete, Take, Connect;
    hide Execute, Leave, KeepsAnswers;
    RunOk(ids, events);
    var s := Run(Start(ids), events);
    match e
    case Regular(x, op) => RegularKeeps(s, x, op, id);
    case BeginAt(x, key) => BeginKeeps(s, x, key, id);
    case InTransaction(token, op) => if !op.Begin? { RoutedKeeps(s, token, op, id, false); } SameKeeps(s.slots[id]);
    case End(token, op) => if !op.Begin? { RoutedKeeps(s, token, op, id, true); } SameKeeps(s.slots[id]);
    case Cancel(key) => if key in s.keys { RoutedKeeps(s, s.keys[key], Rollback, id, true); } SameKeeps(s.slots[id]);
    case CompleteAt(x) => if x in s.slots { CompleteKeeps(s, x, id); } SameKeeps(s.slots[id]);
    case _ => StepKeeps(s, e, id);
  }

  lemma SameKeeps(slot: Slot)
    ensures KeepsAnswers(slot, slot)
  {
  }

  lemma RegularKeeps(s: State, x: SlotId, op: Op, id: SlotId)
    requires Inv(s) && id in s.slots
    ensures var t := Next(s, Regular(x, op)); id in t.slots && KeepsAnswers(s.slots[id], t.slots[id])
  {
    hide Inv, Enqueue;
    if (op.Query? || op.Exec?) && x in s.slots { EnqueueKeeps(s, x, op, 0, id); }
  }

  lemma StepKeeps(s: State, e: Event, id: SlotId)
    requires id in s.slots && (e.Stop? || e.TakeAt? || e.ConnectAt? || e.ExecuteAt? || e.LeaveAt?)
    ensures id in Next(s, e).slots && KeepsAnswers(s.slots[id], Next(s, e).slots[id])
  {
    hide Reported;
  }
}
