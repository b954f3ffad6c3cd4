/**
 The request front of the document entity stores: loads go straight to a worker, saves queue by
 partition with only the head of each queue at the backend.
 */
module DocumentQueue {
  import opened ByteStrings
  import opened Results

  datatype Key = Key(store: Bytes, partition: Bytes)

  /** `ticket` numbers the requests as they arrive. */
  datatype Save = Save(ticket: nat, sent: bool)

  datatype Answer =
    | Refused
    | Replied(code: ResultCode)
    | LostLoad
    | Unknown

  type Queues = map<Key, seq<Save>>

  /** The actor's state; `inflight`, `everSent`, `answers`, `finished` and `acknowledged` are what the outside saw. */
  datatype State = State(
    limit: nat, pending: int, draining: bool, exited: bool, loads: set<nat>, saves: Queues, waiters: nat,
    tickets: nat, inflight: map<nat, Key>, everSent: set<nat>, answers: map<nat, Answer>, finished: map<Key, seq<nat>>,
      acknowledged: seq<int>)

  function Start(limit: nat): State { State(limit, 0, false, false, {}, map[], 0, 0, map[], {}, map[], map[], []) }

  // ---- Completion -----------------------------------------------------------------------------------

  /** Everyone waiting for the drain is told once nothing is pending. */
  function NotifyDrained(s: State): State {
    if !s.draining || s.pending != 0 then s
    else s.(waiters := 0, acknowledged := s.acknowledged + Acks(s.waiters, s.pending))
  }

  /** One acknowledgement per waiter, each noting how much was pending when it was sent. */
  function Acks(n: nat, pending: int): (r: seq<int>)
    ensures |r| == n && forall i | 0 <= i < n :: r[i] == pending
  {
    if n == 0 then [] else Acks(n - 1, pending) + [pending]
  }

  function Deliver(s: State, ticket: nat, answer: Answer): State { s.(answers := s.answers[ticket := answer]) }

  function FinishLoad(s: State, ticket: nat, answer: Answer): State {
    if ticket in s.answers then s
    else NotifyDrained(Deliver(s, ticket, answer).(loads := s.loads - {ticket}, pending := s.pending - 1))
  }

  function QueueOf(saves: Queues, key: Key): seq<Save> { if key in saves then saves[key] else [] }

  function PopFront(saves: Queues, key: Key): (r: Queues)
    ensures QueueOf(saves, key) != [] ==> QueueOf(r, key) == QueueOf(saves, key)[1..]
  {
    if key !in saves || |saves[key]| <= 1 then saves - {key} else saves[key := saves[key][1..]]
  }

  function Completed(finished: map<Key, seq<nat>>, key: Key): seq<nat> { if key in finished then finished[key] else [] }

  /** Answers the save and takes the front of its queue away, as the source does, whoever stands there. */
  function Finish(s: State, key: Key, ticket: nat, answer: Answer): State {
    if ticket in s.answers then s
    else
      NotifyDrained(Deliver(s, ticket, answer).(
        saves := PopFront(s.saves, key), pending := s.pending - 1,
        finished := s.finished[key := Completed(s.finished, key) + [ticket]]))
  }

  function SendHead(s: State, key: Key): State
    requires key in s.saves && s.saves[key] != []
  {
    var head := s.saves[key][0];
    s.(saves := s.saves[key := s.saves[key][0 := head.(sent := true)]],
       inflight := s.inflight[head.ticket := key], everSent := s.everSent + {head.ticket})
  }

  /**
   `pump`: refuses heads as long as they are in `stale`, late or without a backend when it looks at them,
   then sends one. A head that has its answer already would keep the loop at it; `PumpExact` says that none has.
   */
  function Pump(s: State, key: Key, stale: set<nat>): State
    decreases |QueueOf(s.saves, key)|
  {
    var queue := QueueOf(s.saves, key);
    if queue == [] || queue[0].ticket in s.answers then s
    else if queue[0].ticket !in stale then SendHead(s, key)
    else Pump(Finish(s, key, queue[0].ticket, Refused), key, stale)
  }

  function FinishAndPump(s: State, key: Key, ticket: nat, answer: Answer, stale: set<nat>): State {
    if ticket in s.answers then s else Pump(Finish(s, key, ticket, answer), key, stale)
  }

  // ---- Requests ----------------------------------------------------------------------------------------

  predicate Admits(s: State) { !s.draining && s.pending < s.limit }

  /** `accepted` says that the request is valid, known and has a backend. */
  function Load(s: State, accepted: bool): State {
    var counted := s.(tickets := s.tickets + 1);
    if !accepted || !Admits(s) then Deliver(counted, s.tickets, Refused)
    else counted.(loads := s.loads + {s.tickets}, pending := s.pending + 1)
  }

  function Append(saves: Queues, key: Key, save: Save): Queues {
    saves[key := QueueOf(saves, key) + [save]]
  }

  function SaveRequest(s: State, key: Key, accepted: bool, stale: set<nat>): State {
    var counted := s.(tickets := s.tickets + 1);
    if !accepted || !Admits(s) then Deliver(counted, s.tickets, Refused)
    else
      var queued := counted.(saves := Append(s.saves, key, Save(s.tickets, false)), pending := s.pending + 1);
      if key in s.saves && s.saves[key] != [] then queued else Pump(queued, key, stale)
  }

  /** What each request still held is told when the actor is forced out. */
  function ExitAnswers(s: State): map<nat, Answer> {
    map t | t in s.loads + Queued(s.saves) ::
      if t in s.loads then LostLoad else if t in s.everSent then Unknown else Refused
  }

  function Queued(saves: Queues): set<nat> { set k, i | k in saves && 0 <= i < |saves[k]| :: saves[k][i].ticket }

  function Exit(s: State): State {
    s.(draining := true, exited := true, answers := s.answers + ExitAnswers(s), loads := {}, saves := map[],
      waiters := 0, pending := 0)
  }

  datatype Event =
    | AskLoad(accepted: bool)
    | AskSave(key: Key, accepted: bool, stale: set<nat>)
    | LoadAnswer(ticket: nat, answer: Answer)
    | SaveAnswer(ticket: nat, answer: Answer, stale: set<nat>)
    | Drain
    | Shutdown
    | ForceExit

  function Next(s: State, e: Event): State {
    match e
    case AskLoad(accepted) => if s.exited then s else Load(s, accepted)
    case AskSave(key, accepted, stale) => if s.exited then s else SaveRequest(s, key, accepted, stale)
    case LoadAnswer(ticket, answer) =>
      if ticket in s.loads && !answer.Refused? then FinishLoad(s, ticket, answer) else s
    case SaveAnswer(ticket, answer, stale) =>
      if ticket in s.inflight && !answer.Refused? then FinishAndPump(s, s.inflight[ticket], ticket, answer, stale)
        else s
    case Drain => if s.exited then s else NotifyDrained(s.(draining := true, waiters := s.waiters + 1))
    case Shutdown => if s.exited then s else s.(draining := true)
    case ForceExit => if s.exited then s else Exit(s)
  }

  function Run(s: State, events: seq<Event>): State {
    if events == [] then s else Next(Run(s, events[..|events| - 1]), events[|events| - 1])
  }

  // ---- The invariant -------------------------------------------------------------------------------------

  predicate Rising(tickets: seq<nat>) { forall i, j | 0 <= i < j < |tickets| :: tickets[i] < tickets[j] }

  function TicketsOf(queue: seq<Save>): (r: seq<nat>)
    ensures |r| == |queue| && forall i | 0 <= i < |r| :: r[i] == queue[i].ticket
  {
    seq(|queue|, i requires 0 <= i < |queue| => queue[i].ticket)
  }

  /** One partition's queue: tickets in order after those finished, nothing at the backend but the head. */
  predicate QueueOk(queue: seq<Save>, done: seq<nat>, headSent: bool) {
    && queue != []
    && Rising(done + TicketsOf(queue))
    && (forall i | 0 < i < |queue| :: !queue[i].sent)
    && queue[0].sent == headSent
  }

  predicate Fresh(s: State, queue: seq<Save>) {
    forall i | 0 <= i < |queue| ::
      && queue[i].ticket < s.tickets && queue[i].ticket !in s.answers && queue[i].ticket !in s.loads
      && (queue[i].sent <==> queue[i].ticket in s.everSent) && (queue[i].sent <==> queue[i].ticket in s.inflight)
  }

  /** Queue `key`, when the head may be waiting to be pumped. */
  predicate KeyOk(s: State, key: Key, headSent: bool) {
    && (key in s.saves ==> QueueOk(s.saves[key], Completed(s.finished, key), headSent) && Fresh(s, s.saves[key]))
    && Rising(Completed(s.finished, key)) && (forall t | t in Completed(s.finished, key) :: t < s.tickets)
  }

  predicate Disjoint(saves: Queues) {
    forall j: Key, k: Key, x: int, y: int | j in saves && k in saves && 0 <= x < |saves[j]| && 0 <= y < |saves[k]|
      && (j != k || x != y) :: saves[j][x].ticket != saves[k][y].ticket
  }

  /** Everything but the waiters and the queue heads. */
  ghost predicate Books(s: State) {
    && s.pending == |s.loads| + |Queued(s.saves)| && s.pending <= s.limit
    && (forall t | t in s.loads :: t < s.tickets && t !in s.answers && t !in s.everSent)
    && (forall t | t in s.answers :: t < s.tickets)
    && (forall t | t in s.everSent :: t < s.tickets)
    && (forall t: nat | t < s.tickets :: t in s.answers || t in s.loads || t in Queued(s.saves))
    && (forall t | t in s.inflight && t !in s.answers ::
      s.inflight[t] in s.saves && s.saves[s.inflight[t]] != [] && s.saves[s.inflight[t]][0].ticket == t)
    && (forall t | t in s.answers && s.answers[t].Refused? :: t !in s.everSent)
    && Disjoint(s.saves)
    && (forall i | 0 <= i < |s.acknowledged| :: s.acknowledged[i] == 0)
    && (s.exited ==> s.loads == {} && s.saves == map[])
  }

  /** Everything but the queue heads, which `pump` is about to see to for one key. */
  ghost predicate Core(s: State) { Books(s) && (s.waiters > 0 ==> s.draining && s.pending > 0) }

  ghost predicate Inv(s: State) { Core(s) && forall key :: KeyOk(s, key, true) }

  /** All queues in order, except that the head of `key` may not have been sent. */
  ghost predicate Pumping(s: State, key: Key) {
    Core(s) && (forall k | k != key :: KeyOk(s, k, true)) && KeyOk(s, key, false)
  }

  lemma StartOk(limit: nat)
    ensures Inv(Start(limit))
  {
    var s := Start(limit);
    assert Queued(s.saves) == {};
    assert |s.loads| == 0 && |Queued(s.saves)| == 0;
    forall key ensures KeyOk(s, key, true) { assert Completed(s.finished, key) == []; }
    assert Core(s);
  }

  // ---- Queues ----------------------------------------------------------------------------------------------

  lemma InQueued(saves: Queues, k: Key, i: nat)
    requires k in saves && i < |saves[k]|
    ensures saves[k][i].ticket in Queued(saves)
  {
  }

  /** The head leaves: one ticket fewer. */
  lemma QueuedPop(saves: Queues, key: Key)
    requires Disjoint(saves) && key in saves && saves[key] != []
    ensures var t := saves[key][0].ticket;
      t in Queued(saves) && Queued(PopFront(saves, key)) == Queued(saves) - {t}
        && |Queued(PopFront(saves, key))| == |Queued(saves)| - 1
  {
    var t := saves[key][0].ticket;
    var after := PopFront(saves, key);
    InQueued(saves, key, 0);
    forall x | x in Queued(after) ensures x in Queued(saves) && x != t {
      var k: Key, i: int :| k in after && 0 <= i < |after[k]| && after[k][i].ticket == x;
      var at := if k == key then i + 1 else i;
      assert saves[k][at].ticket == x;
      InQueued(saves, k, at);
    }
    forall x | x in Queued(saves) && x != t ensures x in Queued(after) {
      var k: Key, i: int :| k in saves && 0 <= i < |saves[k]| && saves[k][i].ticket == x;
      if k == key { assert after[k][i - 1].ticket == x; InQueued(after, k, i - 1); } else { InQueued(after, k, i); }
    }
    assert Queued(after) == Queued(saves) - {t};
  }

  lemma DisjointPop(saves: Queues, key: Key)
    requires Disjoint(saves) && key in saves
    ensures Disjoint(PopFront(saves, key))
  {
    var after: Queues := PopFront(saves, key);
    forall j: Key, k: Key, x: int, y: int | j in after && k in after && 0 <= x < |after[j]| && 0 <= y < |after[k]|
      && (j != k || x != y)
      ensures after[j][x].ticket != after[k][y].ticket
    {
      var x': int, y': int := if j == key then x + 1 else x, if k == key then y + 1 else y;
      assert after[j][x] == saves[j][x'] && after[k][y] == saves[k][y'];
    }
  }

  lemma QueuedAppend(saves: Queues, key: Key, save: Save)
    requires Disjoint(saves) && save.ticket !in Queued(saves)
    ensures var after := Append(saves, key, save);
      Queued(after) == Queued(saves) + {save.ticket} && |Queued(after)| == |Queued(saves)| + 1 && Disjoint(after)
  {
    hide Disjoint;
    AppendKeeps(saves, key, save);
    AppendAdds(saves, key, save);
    assert Queued(Append(saves, key, save)) == Queued(saves) + {save.ticket};
    DisjointAppend(saves, key, save);
  }

  lemma AppendKeeps(saves: Queues, key: Key, save: Save)
    ensures Queued(saves) + {save.ticket} <= Queued(Append(saves, key, save))
  {
    var after := Append(saves, key, save);
    forall x | x in Queued(saves) ensures x in Queued(after) {
      var k: Key, i: int :| k in saves && 0 <= i < |saves[k]| && saves[k][i].ticket == x;
      assert after[k][i] == saves[k][i];
      InQueued(after, k, i);
    }
    InQueued(after, key, |after[key]| - 1);
  }

  lemma AppendAdds(saves: Queues, key: Key, save: Save)
    ensures Queued(Append(saves, key, save)) <= Queued(saves) + {save.ticket}
  {
    var after := Append(saves, key, save);
    forall x | x in Queued(after) ensures x in Queued(saves) + {save.ticket} {
      var k: Key, i: int :| k in after && 0 <= i < |after[k]| && after[k][i].ticket == x;
      if k in saves && i < |saves[k]| { InQueued(saves, k, i); }
    }
  }

  lemma DisjointAppend(saves: Queues, key: Key, save: Save)
    requires Disjoint(saves) && save.ticket !in Queued(saves)
    ensures Disjoint(Append(saves, key, save))
  {
    hide Queued;
    var after := Append(saves, key, save);
    forall j: Key, i: int | j in saves && 0 <= i < |saves[j]|
      ensures saves[j][i].ticket != save.ticket
    {
      InQueued(saves, j, i);
    }
    forall j: Key, i: int | j in after && 0 <= i < |after[j]|
      ensures || (j in saves && i < |saves[j]| && after[j][i] == saves[j][i])
              || (j == key && i == |after[key]| - 1 && after[j][i] == save)
    {
    }
  }

  // ---- Finishing a save ----------------------------------------------------------------------------------------

  lemma NotifyCore(s: State)
    requires Books(s) && (s.waiters > 0 ==> s.draining)
    ensures Core(NotifyDrained(s)) && forall key, sent :: KeyOk(s, key, sent) ==> KeyOk(NotifyDrained(s), key, sent)
  {
    hide Queued, Disjoint, QueueOk;
  }

  /** The state after the head of `key` was answered and popped, before anyone is notified. */
  function Popped(s: State, key: Key, ticket: nat, answer: Answer): State {
    Deliver(s, ticket, answer).(
      saves := PopFront(s.saves, key), pending :=
        s.pending - 1, finished := s.finished[key := Completed(s.finished, key) + [ticket]])
  }

  lemma PoppedBooks(s: State, key: Key, answer: Answer)
    requires Books(s) && key in s.saves && s.saves[key] != [] && s.saves[key][0].ticket !in s.answers
    requires s.saves[key][0].ticket < s.tickets
    requires s.saves[key][0].ticket !in s.loads && (answer.Refused? ==> s.saves[key][0].ticket !in s.everSent)
    ensures Books(Popped(s, key, s.saves[key][0].ticket, answer))
  {
    hide Queued, Disjoint;
    QueuedPop(s.saves, key);
    DisjointPop(s.saves, key);
  }

  lemma RisingShift(done: seq<nat>, queue: seq<Save>)
    requires queue != []
    ensures done + TicketsOf(queue) == (done + [queue[0].ticket]) + TicketsOf(queue[1..])
  {
  }

  lemma PoppedKey(s: State, key: Key, answer: Answer, headSent: bool)
    requires KeyOk(s, key, headSent) && key in s.saves && Disjoint(s.saves)
    ensures KeyOk(Popped(s, key, s.saves[key][0].ticket, answer), key, false)
  {
    hide Rising;
    var queue, done := s.saves[key], Completed(s.finished, key);
    var t := queue[0].ticket;
    var next := Popped(s, key, t, answer);
    RisingShift(done, queue);
    RisingPrefix(done + [t], TicketsOf(queue[1..]));
    assert Completed(next.finished, key) == done + [t];
    if |queue| > 1 {
      assert next.saves[key] == queue[1..];
      forall i | 0 <= i < |queue[1..]| ensures queue[1..][i] == queue[i + 1] && queue[i + 1].ticket != t {}
    }
  }

  lemma RisingPrefix(a: seq<nat>, b: seq<nat>)
    requires Rising(a + b)
    ensures Rising(a)
  {
    forall i, j | 0 <= i < j < |a| ensures a[i] < a[j] { assert (a + b)[i] == a[i] && (a + b)[j] == a[j]; }
  }

  lemma PoppedOther(s: State, key: Key, answer: Answer, k: Key)
    requires KeyOk(s, k, true) && k != key && key in s.saves && s.saves[key] != [] && Disjoint(s.saves)
    ensures KeyOk(Popped(s, key, s.saves[key][0].ticket, answer), k, true)
  {
    hide QueueOk, Rising;
    var next := Popped(s, key, s.saves[key][0].ticket, answer);
    if k in s.saves {
      forall i | 0 <= i < |s.saves[k]| ensures s.saves[k][i].ticket != s.saves[key][0].ticket {}
    }
  }

  /** Finishing the head of a queue leaves the rest of it waiting for `pump`. */
  lemma FinishOk(s: State, key: Key, answer: Answer, headSent: bool)
    requires Core(s) && (forall k | k != key :: KeyOk(s, k, true)) && KeyOk(s, key, headSent) && key in s.saves
    requires answer.Refused? ==> !headSent
    ensures s.saves[key] != [] && Pumping(Finish(s, key, s.saves[key][0].ticket, answer), key)
  {
    hide Queued, Disjoint, NotifyDrained, Rising;
    var next := Popped(s, key, s.saves[key][0].ticket, answer);
    assert s.saves[key][0].ticket !in s.answers;
    PoppedBooks(s, key, answer);
    PoppedKey(s, key, answer, headSent);
    forall k | k != key ensures KeyOk(next, k, true) { PoppedOther(s, key, answer, k); }
    NotifyCore(next);
    assert Finish(s, key, s.saves[key][0].ticket, answer) == NotifyDrained(next);
  }

  // ---- Pump ------------------------------------------------------------------------------------------------------

  lemma SendOk(s: State, key: Key)
    requires Pumping(s, key) && key in s.saves
    ensures s.saves[key] != [] && Inv(SendHead(s, key))
  {
    hide Disjoint, Queued, Rising;
    var next := SendHead(s, key);
    var queue := s.saves[key];
    assert TicketsOf(next.saves[key]) == TicketsOf(queue);
    SentQueued(s.saves, key);
    SentCore(s, key);
    forall k ensures KeyOk(next, k, true) { SentKey(s, key, k); }
  }

  lemma SentQueued(saves: Queues, key: Key)
    requires key in saves && saves[key] != []
    ensures var after := saves[key := saves[key][0 := saves[key][0].(sent := true)]];
      Queued(after) == Queued(saves) && (Disjoint(saves) ==> Disjoint(after))
  {
    var after: Queues := saves[key := saves[key][0 := saves[key][0].(sent := true)]];
    forall k: Key, i: int | k in saves && 0 <= i < |saves[k]| ensures after[k][i].ticket == saves[k][i].ticket {}
    forall x | x in Queued(saves) ensures x in Queued(after) {
      var k: Key, i: int :| k in saves && 0 <= i < |saves[k]| && saves[k][i].ticket == x;
      assert after[k][i].ticket == x;
    }
    forall x | x in Queued(after) ensures x in Queued(saves) {
      var k: Key, i: int :| k in after && 0 <= i < |after[k]| && after[k][i].ticket == x;
      assert saves[k][i].ticket == x;
    }
  }

  lemma SentCore(s: State, key: Key)
    requires Core(s) && KeyOk(s, key, false) && key in s.saves
    ensures Core(SendHead(s, key))
  {
    hide Disjoint, Queued, Rising;
    SentQueued(s.saves, key);
  }

  lemma SentKey(s: State, key: Key, k: Key)
    requires Pumping(s, key) && key in s.saves
    ensures KeyOk(SendHead(s, key), k, true)
  {
    hide Queued, Rising;
    var next := SendHead(s, key);
    if k == key {
      assert TicketsOf(next.saves[key]) == TicketsOf(s.saves[key]);
    } else {
      assert KeyOk(s, k, true);
    }
    if k != key && k in s.saves {
      forall i | 0 <= i < |s.saves[k]| ensures s.saves[k][i].ticket != s.saves[key][0].ticket {}
    }
  }

  lemma EmptyIsPumped(s: State, key: Key)
    requires Pumping(s, key) && key !in s.saves
    ensures Inv(s)
  {
    hide Core, QueueOk, Rising;
    forall k ensures KeyOk(s, k, true) {}
  }

  /** Whatever it finds, `pump` ends with every head at the backend. */
  lemma {:induction false} PumpOk(s: State, key: Key, stale: set<nat>)
    requires Pumping(s, key)
    ensures Inv(Pump(s, key, stale))
    decreases |QueueOf(s.saves, key)|
  {
    hide Core, KeyOk, Finish, SendHead;
    if key !in s.saves {
      EmptyIsPumped(s, key);
    } else {
      NonEmpty(s, key, false);
      PumpingUnanswered(s, key);
      var ticket := s.saves[key][0].ticket;
      if ticket !in stale {
        SendOk(s, key);
      } else {
        FinishOk(s, key, Refused, false);
        FinishPops(s, key, Refused);
        PumpOk(Finish(s, key, ticket, Refused), key, stale);
      }
    }
  }

  lemma FinishPops(s: State, key: Key, answer: Answer)
    requires var queue := QueueOf(s.saves, key); queue != [] && queue[0].ticket !in s.answers
    ensures var queue := QueueOf(s.saves, key); var t := Finish(s, key, queue[0].ticket, answer);
      QueueOf(t.saves, key) == queue[1..] && t.answers == s.answers[queue[0].ticket := answer]
  {
  }

  /** How many heads in a row are stale. */
  function StaleHeads(queue: seq<Save>, stale: set<nat>): (n: nat)
    ensures n <= |queue| && (forall i | 0 <= i < n :: queue[i].ticket in stale)
    ensures n < |queue| ==> queue[n].ticket !in stale
  {
    if queue == [] || queue[0].ticket !in stale then 0 else 1 + StaleHeads(queue[1..], stale)
  }

  predicate Unanswered(s: State, queue: seq<Save>) {
    && (forall i | 0 <= i < |queue| :: queue[i].ticket !in s.answers)
    && (forall i, j | 0 <= i < j < |queue| :: queue[i].ticket != queue[j].ticket)
  }

  lemma PumpingUnanswered(s: State, key: Key)
    requires Pumping(s, key)
    ensures Unanswered(s, QueueOf(s.saves, key))
  {
    hide Core, Rising;
    if key in s.saves { RisingApart(Completed(s.finished, key), s.saves[key]); }
  }

  lemma RisingApart(done: seq<nat>, queue: seq<Save>)
    requires Rising(done + TicketsOf(queue))
    ensures forall i, j | 0 <= i < j < |queue| :: queue[i].ticket != queue[j].ticket
  {
    var all := done + TicketsOf(queue);
    forall i, j | 0 <= i < j < |queue| ensures queue[i].ticket != queue[j].ticket {
      assert all[|done| + i] == queue[i].ticket && all[|done| + j] == queue[j].ticket;
    }
  }

  /** The stale heads are refused, no other save is, and the first that is not stale goes to the backend. */
  lemma {:induction false} PumpExact(s: State, key: Key, stale: set<nat>)
    requires Unanswered(s, QueueOf(s.saves, key))
    ensures var queue := QueueOf(s.saves, key); var n := StaleHeads(queue, stale); var t := Pump(s, key, stale);
      && QueueOf(t.saves, key) == (if n < |queue| then [queue[n].(sent := true)] + queue[n + 1..] else [])
      && (n < |queue| ==> queue[n].ticket in t.inflight && t.inflight[queue[n].ticket] == key)
      && (forall i | 0 <= i < n :: queue[i].ticket in t.answers && t.answers[queue[i].ticket].Refused?)
      && (forall x | x in t.answers && x !in s.answers :: exists i | 0 <= i < n :: queue[i].ticket == x)
      && (forall x | x in s.answers :: x in t.answers && t.answers[x] == s.answers[x])
    decreases |QueueOf(s.saves, key)|
  {
    hide Finish;
    var queue := QueueOf(s.saves, key);
    if queue != [] && queue[0].ticket in stale {
      var next := Finish(s, key, queue[0].ticket, Refused);
      FinishPops(s, key, Refused);
      forall i | 0 <= i < |queue[1..]| ensures queue[1..][i] == queue[i + 1] && queue[i + 1].ticket !in next.answers {}
      PumpExact(next, key, stale);
      PumpShift(queue, stale);
      PumpedAnswers(s, next, Pump(next, key, stale), queue, StaleHeads(queue[1..], stale));
    } else if queue != [] {
      assert queue[0 := queue[0].(sent := true)] == [queue[0].(sent := true)] + queue[1..];
    }
  }

  lemma PumpShift(queue: seq<Save>, stale: set<nat>)
    requires queue != [] && queue[0].ticket in stale
    ensures var m := StaleHeads(queue[1..], stale); var n := StaleHeads(queue, stale);
      n == m + 1 && (m < |queue[1..]| ==> queue[1..][m] == queue[n] && queue[1..][m + 1..] == queue[n + 1..])
  {
  }

  lemma PumpedAnswers(s: State, next: State, t: State, queue: seq<Save>, m: nat)
    requires queue != [] && m <= |queue[1..]| && next.answers == s.answers[queue[0].ticket := Refused]
    requires queue[0].ticket !in s.answers
    requires forall i | 0 <= i < m :: queue[1..][i].ticket in t.answers && t.answers[queue[1..][i].ticket].Refused?
    requires forall x | x in t.answers && x !in next.answers :: exists i | 0 <= i < m :: queue[1..][i].ticket == x
    requires forall x | x in next.answers :: x in t.answers && t.answers[x] == next.answers[x]
    ensures forall i | 0 <= i < m + 1 :: queue[i].ticket in t.answers && t.answers[queue[i].ticket].Refused?
    ensures forall x | x in t.answers && x !in s.answers :: exists i | 0 <= i < m + 1 :: queue[i].ticket == x
    ensures forall x | x in s.answers :: x in t.answers && t.answers[x] == s.answers[x]
  {
    forall i | 0 <= i < m + 1 ensures queue[i].ticket in t.answers && t.answers[queue[i].ticket].Refused? {
      if i > 0 { assert queue[i] == queue[1..][i - 1]; } else { assert queue[0].ticket in next.answers; }
    }
    forall x | x in t.answers && x !in s.answers ensures exists i | 0 <= i < m + 1 :: queue[i].ticket == x {
      if x in next.answers {
        assert queue[0].ticket == x;
      } else {
        var i :| 0 <= i < m && queue[1..][i].ticket == x;
        assert queue[i + 1].ticket == x;
      }
    }
  }

  lemma NonEmpty(s: State, key: Key, headSent: bool)
    requires KeyOk(s, key, headSent) && key in s.saves
    ensures s.saves[key] != []
  {
  }

  // ---- Events -------------------------------------------------------------------------------------------------------

  lemma RefusedOk(s: State)
    requires Inv(s)
    ensures Inv(Deliver(s.(tickets := s.tickets + 1), s.tickets, Refused))
  {
    hide Queued, Disjoint, Rising, QueueOk;
    var next := Deliver(s.(tickets := s.tickets + 1), s.tickets, Refused);
    forall key ensures KeyOk(next, key, true) { assert KeyOk(s, key, true); }
  }

  lemma LoadOk(s: State, accepted: bool)
    requires Inv(s) && !s.exited
    ensures Inv(Load(s, accepted))
  {
    hide Queued, Disjoint, Rising, QueueOk;
    if !accepted || !Admits(s) {
      RefusedOk(s);
    } else {
      var next := Load(s, accepted);
      assert |next.loads| == |s.loads| + 1;
      forall key ensures KeyOk(next, key, true) { assert KeyOk(s, key, true); }
    }
  }

  lemma TicketUnused(s: State)
    requires Inv(s)
    ensures s.tickets !in Queued(s.saves) && s.tickets !in s.answers && s.tickets !in s.loads
    ensures s.tickets !in s.everSent && s.tickets !in s.inflight
  {
    hide Disjoint, Rising, QueueOk;
    forall k: Key, i: int | k in s.saves && 0 <= i < |s.saves[k]|
      ensures s.saves[k][i].ticket < s.tickets
    {
      assert KeyOk(s, k, true);
    }
    forall t | t in s.inflight ensures t < s.tickets {
      if t !in s.answers { assert KeyOk(s, s.inflight[t], true); }
    }
  }

  lemma RisingMore(tickets: seq<nat>, t: nat)
    requires Rising(tickets) && forall x | x in tickets :: x < t
    ensures Rising(tickets + [t])
  {
    forall i | 0 <= i < |tickets| ensures tickets[i] < t { assert tickets[i] in tickets; }
  }

  /** The save joins its queue; an empty queue now waits for `pump`. */
  function QueuedSave(s: State, key: Key): State {
    s.(tickets := s.tickets + 1, saves := Append(s.saves, key, Save(s.tickets, false)), pending := s.pending + 1)
  }

  lemma QueuedCore(s: State, key: Key)
    requires Inv(s) && Admits(s) && !s.exited
    ensures Core(QueuedSave(s, key))
  {
    hide Queued, Disjoint, Rising, QueueOk, KeyOk;
    TicketUnused(s);
    QueuedAppend(s.saves, key, Save(s.tickets, false));
    var next := QueuedSave(s, key);
    assert forall k | k in s.saves && s.saves[k] != [] ::
      k in next.saves && next.saves[k] != [] && next.saves[k][0] == s.saves[k][0];
  }

  lemma QueuedKey(s: State, key: Key, k: Key)
    requires Inv(s)
    ensures KeyOk(QueuedSave(s, key), k, k != key || key in s.saves)
  {
    hide Queued, Disjoint, Core, Rising, QueueOk;
    assert KeyOk(s, k, true);
    TicketUnused(s);
    if k == key {
      var queue := QueueOf(s.saves, key);
      if key in s.saves { NonEmpty(s, key, true); }
      AppendedFresh(s, key);
      AppendedOk(queue, Completed(s.finished, key), s.tickets);
    }
  }

  lemma AppendedFresh(s: State, key: Key)
    requires Inv(s)
    ensures Fresh(QueuedSave(s, key), QueueOf(s.saves, key) + [Save(s.tickets, false)])
  {
    hide Queued, Disjoint, Core, Rising, QueueOk;
    assert KeyOk(s, key, true);
    TicketUnused(s);
  }

  lemma AppendedOk(queue: seq<Save>, done: seq<nat>, ticket: nat)
    requires queue != [] ==> QueueOk(queue, done, true)
    requires Rising(done) && (forall t | t in done :: t < ticket)
    requires forall i | 0 <= i < |queue| :: queue[i].ticket < ticket
    ensures QueueOk(queue + [Save(ticket, false)], done, queue != [])
  {
    hide Rising;
    var next := queue + [Save(ticket, false)];
    assert TicketsOf(next) == TicketsOf(queue) + [ticket];
    assert done + TicketsOf(next) == (done + TicketsOf(queue)) + [ticket];
    assert queue == [] ==> done + TicketsOf(queue) == done;
    RisingMore(done + TicketsOf(queue), ticket);
  }

  /** A save that opens its queue leaves it ready for `pump`. */
  lemma QueuedPumps(s: State, key: Key)
    requires Inv(s) && !s.exited
    ensures Admits(s) && QueueOf(s.saves, key) == [] ==> Pumping(QueuedSave(s, key), key)
    ensures Admits(s) && QueueOf(s.saves, key) != [] ==> Inv(QueuedSave(s, key))
  {
    hide Core, KeyOk, Append;
    if Admits(s) {
      var next := QueuedSave(s, key);
      QueuedCore(s, key);
      forall k | k != key ensures KeyOk(next, k, true) { QueuedKey(s, key, k); }
      QueuedKey(s, key, key);
      if key in s.saves { NonEmpty(s, key, true); }
    }
  }

  lemma SaveOk(s: State, key: Key, accepted: bool, stale: set<nat>)
    requires Inv(s) && !s.exited
    ensures Inv(SaveRequest(s, key, accepted, stale))
  {
    hide Inv, Pumping, Pump, Append;
    QueuedPumps(s, key);
    if !accepted || !Admits(s) {
      RefusedOk(s);
    } else if QueueOf(s.saves, key) == [] {
      PumpOk(QueuedSave(s, key), key, stale);
    }
  }

  lemma LoadAnswerOk(s: State, ticket: nat, answer: Answer)
    requires Inv(s) && ticket in s.loads && !answer.Refused?
    ensures Inv(FinishLoad(s, ticket, answer))
  {
    hide Queued, Disjoint, Rising, QueueOk, NotifyDrained;
    var next := Deliver(s, ticket, answer).(loads := s.loads - {ticket}, pending := s.pending - 1);
    assert |next.loads| == |s.loads| - 1;
    assert Books(next);
    forall key ensures KeyOk(next, key, true) { assert KeyOk(s, key, true); }
    NotifyCore(next);
  }

  /** Only the head of a queue can be answered by the backend. */
  lemma AnsweredPumps(s: State, ticket: nat, answer: Answer)
    requires Inv(s) && ticket in s.inflight && !answer.Refused? && ticket !in s.answers
    ensures Pumping(Finish(s, s.inflight[ticket], ticket, answer), s.inflight[ticket])
  {
    hide KeyOk, Finish, Queued, Disjoint;
    FinishOk(s, s.inflight[ticket], answer, true);
  }

  lemma SaveAnswerOk(s: State, ticket: nat, answer: Answer, stale: set<nat>)
    requires Inv(s) && ticket in s.inflight && !answer.Refused?
    ensures Inv(FinishAndPump(s, s.inflight[ticket], ticket, answer, stale))
  {
    hide Inv, Pumping, Pump, Finish;
    if ticket !in s.answers {
      AnsweredPumps(s, ticket, answer);
      PumpOk(Finish(s, s.inflight[ticket], ticket, answer), s.inflight[ticket], stale);
    }
  }

  lemma DrainOk(s: State)
    requires Inv(s)
    ensures Inv(NotifyDrained(s.(draining := true, waiters := s.waiters + 1)))
  {
    hide Queued, Disjoint, Rising, QueueOk, NotifyDrained;
    var next := s.(draining := true, waiters := s.waiters + 1);
    assert Books(next);
    forall key ensures KeyOk(next, key, true) { assert KeyOk(s, key, true); }
    NotifyCore(next);
  }

  lemma ShutdownOk(s: State)
    requires Inv(s)
    ensures Inv(s.(draining := true))
  {
    hide Queued, Disjoint, Rising, QueueOk;
    var next := s.(draining := true);
    forall key ensures KeyOk(next, key, true) { assert KeyOk(s, key, true); }
  }

  lemma ExitOk(s: State)
    requires Inv(s)
    ensures Inv(Exit(s))
  {
    hide Disjoint, Rising, QueueOk;
    var next := Exit(s);
    assert Queued(next.saves) == {};
    forall t | t in Queued(s.saves) ensures t < s.tickets {
      var k: Key, i: int :| k in s.saves && 0 <= i < |s.saves[k]| && s.saves[k][i].ticket == t;
      assert KeyOk(s, k, true);
    }
    forall key ensures KeyOk(next, key, true) { assert KeyOk(s, key, true); }
    NoQueues();
    InflightAnswered(s);
  }

  lemma NoQueues()
    ensures Disjoint(map[])
  {
  }

  lemma InflightAnswered(s: State)
    requires Core(s)
    ensures forall t | t in s.inflight :: t in Exit(s).answers
  {
    hide Disjoint;
    forall t | t in s.inflight ensures t in Exit(s).answers {
      if t !in s.answers { InQueued(s.saves, s.inflight[t], 0); }
    }
  }

  lemma NextOk(s: State, e: Event)
    requires Inv(s)
    ensures Inv(Next(s, e))
  {
    hide Inv, Load, SaveRequest, FinishLoad, FinishAndPump, NotifyDrained, Exit;
    match e
    case AskLoad(accepted) => if !s.exited { LoadOk(s, accepted); }
    case AskSave(key, accepted, stale) => if !s.exited { SaveOk(s, key, accepted, stale); }
    case LoadAnswer(ticket, answer) => if ticket in s.loads && !answer.Refused? { LoadAnswerOk(s, ticket, answer); }
    case SaveAnswer(ticket, answer, stale) =>
      if ticket in s.inflight && !answer.Refused? { SaveAnswerOk(s, ticket, answer, stale); }
    case Drain => if !s.exited { DrainOk(s); }
    case Shutdown => ShutdownOk(s);
    case ForceExit => ExitOk(s);
  }

  lemma {:induction false} RunOk(limit: nat, events: seq<Event>)
    ensures Inv(Run(Start(limit), events))
  {
    hide Inv, Next;
    if events == [] {
      StartOk(limit);
    } else {
      RunOk(limit, events[..|events| - 1]);
      NextOk(Run(Start(limit), events[..|events| - 1]), events[|events| - 1]);
    }
  }

  // ---- Theorems ---------------------------------------------------------------------------------------------------

  /** The counter is exact and bounded: outstanding loads plus queued saves, never above the limit. */
  lemma PendingExact(limit: nat, events: seq<Event>)
    ensures var s := Run(Start(limit), events);
      s.pending == |s.loads| + |Queued(s.saves)| && 0 <= s.pending <= limit && Disjoint(s.saves)
  {
    hide Run, KeyOk;
    RunOk(limit, events);
    LimitStays(limit, events);
  }

  lemma {:induction false} LimitStays(limit: nat, events: seq<Event>)
    ensures Run(Start(limit), events).limit == limit
  {
    hide Next;
    if events != [] {
      LimitStays(limit, events[..|events| - 1]);
      NextLimit(Run(Start(limit), events[..|events| - 1]), events[|events| - 1]);
    }
  }

  lemma {:induction false} PumpLimit(s: State, key: Key, stale: set<nat>)
    ensures Pump(s, key, stale).limit == s.limit
    decreases |QueueOf(s.saves, key)|
  {
    hide Finish;
    var queue := QueueOf(s.saves, key);
    if queue != [] && queue[0].ticket !in s.answers && queue[0].ticket in stale {
      FinishLimit(s, key, queue[0].ticket, Refused);
      FinishPops(s, key, Refused);
      PumpLimit(Finish(s, key, queue[0].ticket, Refused), key, stale);
    }
  }

  lemma FinishLimit(s: State, key: Key, ticket: nat, answer: Answer)
    ensures Finish(s, key, ticket, answer).limit == s.limit
  {
  }

  lemma NextLimit(s: State, e: Event)
    ensures Next(s, e).limit == s.limit
  {
    hide Pump, Finish, Append, Queued;
    match e
    case AskSave(key, accepted, stale) => PumpLimit(QueuedSave(s, key), key, stale);
    case SaveAnswer(ticket, answer, stale) =>
      if ticket in s.inflight {
        FinishLimit(s, s.inflight[ticket], ticket, answer);
        PumpLimit(Finish(s, s.inflight[ticket], ticket, answer), s.inflight[ticket], stale);
      }
    case _ =>
  }

  /** In every queue exactly the head is at the backend, and saves are finished and queued in arrival order. */
  lemma HeadsOnly(limit: nat, events: seq<Event>, key: Key)
    ensures var s := Run(Start(limit), events);
      && Rising(Completed(s.finished, key) + if key in s.saves then TicketsOf(s.saves[key]) else [])
      && (key in s.saves ==> s.saves[key] != [] && forall i | 0 <= i < |s.saves[key]| ::
        s.saves[key][i].sent <==> i == 0)
  {
    hide Run, Core, Rising;
    RunOk(limit, events);
    var s := Run(Start(limit), events);
    assert KeyOk(s, key, true);
    assert Completed(s.finished, key) + [] == Completed(s.finished, key);
  }

  /** Every request has an answer or is still held, never both, and no event changes an answer. */
  lemma AnsweredExactlyOnce(limit: nat, events: seq<Event>, e: Event, ticket: nat)
    requires ticket < Run(Start(limit), events).tickets
    ensures var s := Run(Start(limit), events);
      && (ticket in s.answers <==> ticket !in s.loads && ticket !in Queued(s.saves))
      && (ticket in s.answers ==> ticket in Next(s, e).answers && Next(s, e).answers[ticket] == s.answers[ticket])
  {
    hide Run, Next, Queued;
    RunOk(limit, events);
    var s := Run(Start(limit), events);
    if ticket in s.answers {
      NotHeld(s, ticket);
      AnswerStays(s, e, ticket);
    }
  }

  lemma NotHeld(s: State, ticket: nat)
    requires Inv(s) && ticket in s.answers
    ensures ticket !in Queued(s.saves) && ticket !in s.loads
  {
    hide Disjoint, QueueOk, Rising;
    forall k: Key, i: int | k in s.saves && 0 <= i < |s.saves[k]|
      ensures s.saves[k][i].ticket != ticket
    {
      assert KeyOk(s, k, true);
    }
  }

  predicate KeepsAnswer(s: State, t: State, ticket: nat) {
    ticket in s.answers ==> ticket in t.answers && t.answers[ticket] == s.answers[ticket]
  }

  lemma FinishKeeps(s: State, key: Key, x: nat, answer: Answer, ticket: nat)
    ensures KeepsAnswer(s, Finish(s, key, x, answer), ticket)
  {
  }

  lemma {:induction false} PumpKeeps(s: State, key: Key, stale: set<nat>, ticket: nat)
    ensures KeepsAnswer(s, Pump(s, key, stale), ticket)
    decreases |QueueOf(s.saves, key)|
  {
    hide Finish;
    var queue := QueueOf(s.saves, key);
    if queue != [] && queue[0].ticket !in s.answers && queue[0].ticket in stale {
      var next := Finish(s, key, queue[0].ticket, Refused);
      FinishKeeps(s, key, queue[0].ticket, Refused, ticket);
      FinishPops(s, key, Refused);
      PumpKeeps(next, key, stale, ticket);
    }
  }

  lemma AnswerStays(s: State, e: Event, ticket: nat)
    requires Inv(s) && ticket in s.answers
    ensures KeepsAnswer(s, Next(s, e), ticket)
  {
    hide Inv, Pump, Finish, Append, Queued;
    TicketUnused(s);
    NotHeld(s, ticket);
    match e
    case AskSave(key, accepted, stale) => PumpKeeps(QueuedSave(s, key), key, stale, ticket);
    case SaveAnswer(x, answer, stale) =>
      if x in s.inflight {
        FinishKeeps(s, s.inflight[x], x, answer, ticket);
        PumpKeeps(Finish(s, s.inflight[x], x, answer), s.inflight[x], stale, ticket);
      }
    case _ =>
  }

  /** A refusal is the truth: the request was never handed to the backend. */
  lemma RefusalIsTrue(limit: nat, events: seq<Event>, ticket: nat)
    requires var s := Run(Start(limit), events); ticket in s.answers && s.answers[ticket].Refused?
    ensures ticket !in Run(Start(limit), events).everSent
  {
    hide Run, KeyOk, Queued, Disjoint;
    RunOk(limit, events);
  }

  /** Drain is acknowledged only with nothing pending, and nobody is left waiting then. */
  lemma DrainAtZero(limit: nat, events: seq<Event>)
    ensures var s := Run(Start(limit), events);
      && (forall i | 0 <= i < |s.acknowledged| :: s.acknowledged[i] == 0)
      && (s.waiters > 0 ==> s.draining && s.pending > 0)
  {
    hide Run, KeyOk, Queued, Disjoint;
    RunOk(limit, events);
  }
}
