/** Who is answered what by the request front of the document stores, event by event. */
module DocumentAnswers {
  import opened ByteStrings
  import opened Results
  import opened DocumentQueue

  /** Fewer requests are outstanding than allowed, and no drain has begun. */
  predicate HasRoom(s: State) { !s.draining && |s.loads| + |Queued(s.saves)| < s.limit }

  /** Exactly these new answers. */
  ghost predicate Adds(s: State, t: State, added: map<nat, Answer>) { t.answers == s.answers + added }

  /** The leading saves of a queue that are refused. */
  function StaleAnswers(queue: seq<Save>, stale: set<nat>): map<nat, Answer> {
    map i | 0 <= i < StaleHeads(queue, stale) :: queue[i].ticket := Refused
  }

  function Behind(queue: seq<Save>): seq<Save> { if queue == [] then [] else queue[1..] }

  /** What a request still held is told on exit: nothing was sent, or it was and the outcome is unknown. */
  ghost predicate ExitTells(s: State, t: State) {
    && t.answers.Keys == s.answers.Keys + s.loads + Queued(s.saves)
    && (forall x | x in s.answers :: t.answers[x] == s.answers[x])
    && (forall x | x in s.loads :: t.answers[x] == LostLoad)
    && (forall k: Key, i: int | k in s.saves && 0 <= i < |s.saves[k]| ::
          t.answers[s.saves[k][i].ticket] == if i == 0 then Unknown else Refused)
  }

  /** One event, and everyone it answers. */
  ghost predicate Tells(s: State, e: Event, t: State) {
    match e
    case AskLoad(accepted) =>
      && t.tickets == s.tickets + 1
      && if accepted && HasRoom(s) then Adds(s, t, map[]) && t.loads == s.loads + {s.tickets}
         else Adds(s, t, map[s.tickets := Refused]) && t.loads == s.loads
    case AskSave(key, accepted, stale) =>
      && t.tickets == s.tickets + 1
      && if !(accepted && HasRoom(s)) then Adds(s, t, map[s.tickets := Refused]) && t.saves == s.saves
         else if QueueOf(s.saves, key) != [] then
           Adds(s, t, map[]) && QueueOf(t.saves, key) == QueueOf(s.saves, key) + [Save(s.tickets, false)]
         else if s.tickets in stale then Adds(s, t, map[s.tickets := Refused]) && QueueOf(t.saves, key) == []
         else Adds(s, t, map[]) && QueueOf(t.saves, key) == [Save(s.tickets, true)]
    case LoadAnswer(ticket, answer) =>
      Adds(s, t, if ticket in s.loads && !answer.Refused? then map[ticket := answer] else map[])
    case SaveAnswer(ticket, answer, stale) =>
      if ticket !in s.inflight || ticket in s.answers || answer.Refused? then Adds(s, t, map[])
      else Adds(s, t, map[ticket := answer] + StaleAnswers(Behind(QueueOf(s.saves, s.inflight[ticket])), stale))
    case ForceExit => ExitTells(s, t)
    case _ => Adds(s, t, map[])
  }

  lemma RoomIs(s: State)
    requires Inv(s)
    ensures HasRoom(s) <==> Admits(s)
  {
    hide Queued, KeyOk, Disjoint;
  }

  lemma FinishAnswers(s: State, key: Key, ticket: nat, answer: Answer)
    requires ticket !in s.answers
    ensures Finish(s, key, ticket, answer).answers == s.answers[ticket := answer]
  {
  }

  lemma PumpAdds(s: State, key: Key, stale: set<nat>)
    requires Unanswered(s, QueueOf(s.saves, key))
    ensures Adds(s, Pump(s, key, stale), StaleAnswers(QueueOf(s.saves, key), stale))
  {
    hide Pump, Unanswered, QueueOf;
    PumpExact(s, key, stale);
    JustThese(s.answers, Pump(s, key, stale).answers, QueueOf(s.saves, key), stale);
  }

  lemma JustThese(before: map<nat, Answer>, after: map<nat, Answer>, queue: seq<Save>, stale: set<nat>)
    requires var n := StaleHeads(queue, stale);
      && (forall i | 0 <= i < n :: queue[i].ticket in after && after[queue[i].ticket].Refused?)
      && (forall x | x in after && x !in before :: exists i | 0 <= i < n :: queue[i].ticket == x)
      && (forall x | x in before :: x in after && after[x] == before[x])
    ensures after == before + StaleAnswers(queue, stale)
  {
    hide StaleHeads;
    var added := StaleAnswers(queue, stale);
    forall x | x in after && x !in before ensures x in added {
      var i :| 0 <= i < StaleHeads(queue, stale) && queue[i].ticket == x;
    }
    assert after.Keys == (before + added).Keys;
  }

  lemma PumpTells(s: State, key: Key, stale: set<nat>)
    requires Pumping(QueuedSave(s, key), key) && QueueOf(s.saves, key) == []
    ensures var t := Pump(QueuedSave(s, key), key, stale);
      if s.tickets in stale then Adds(s, t, map[s.tickets := Refused]) && QueueOf(t.saves, key) == []
      else Adds(s, t, map[]) && QueueOf(t.saves, key) == [Save(s.tickets, true)]
  {
    hide Pump, Pumping, Finish, StaleHeads, StaleAnswers, Append;
    var next := QueuedSave(s, key);
    AppendFirst(s.saves, key, Save(s.tickets, false));
    PumpingUnanswered(next, key);
    PumpExact(next, key, stale);
    PumpAdds(next, key, stale);
    OneStale(Save(s.tickets, false), stale);
  }

  lemma AppendFirst(saves: Queues, key: Key, save: Save)
    requires QueueOf(saves, key) == []
    ensures QueueOf(Append(saves, key, save), key) == [save]
  {
  }

  lemma OneStale(save: Save, stale: set<nat>)
    ensures StaleHeads([save], stale) == if save.ticket in stale then 1 else 0
    ensures StaleAnswers([save], stale) == if save.ticket in stale then map[save.ticket := Refused] else map[]
  {
    assert [save][1..] == [];
    assert StaleHeads([save], stale) == if save.ticket in stale then 1 else 0;
  }

  lemma PumpTickets(s: State, key: Key, stale: set<nat>)
    ensures Pump(s, key, stale).tickets == s.tickets
    decreases |QueueOf(s.saves, key)|
  {
    hide Finish;
    var queue := QueueOf(s.saves, key);
    if queue != [] && queue[0].ticket !in s.answers && queue[0].ticket in stale {
      FinishPops(s, key, Refused);
      FinishTickets(s, key, queue[0].ticket, Refused);
      PumpTickets(Finish(s, key, queue[0].ticket, Refused), key, stale);
    }
  }

  lemma FinishTickets(s: State, key: Key, ticket: nat, answer: Answer)
    ensures Finish(s, key, ticket, answer).tickets == s.tickets
  {
  }

  lemma AppendLast(saves: Queues, key: Key, save: Save)
    ensures QueueOf(Append(saves, key, save), key) == QueueOf(saves, key) + [save]
  {
  }

  lemma AskSaveTells(s: State, key: Key, accepted: bool, stale: set<nat>)
    requires Inv(s) && !s.exited
    ensures Tells(s, AskSave(key, accepted, stale), SaveRequest(s, key, accepted, stale))
  {
    hide Inv, Pump, Pumping, HasRoom, Admits, Append;
    RoomIs(s);
    QueuedPumps(s, key);
    AppendLast(s.saves, key, Save(s.tickets, false));
    if accepted && Admits(s) && QueueOf(s.saves, key) == [] {
      PumpTells(s, key, stale);
      PumpTickets(QueuedSave(s, key), key, stale);
    } else if accepted && Admits(s) {
      assert s.answers + map[] == s.answers;
    }
  }

  lemma SaveAnswerTells(s: State, ticket: nat, answer: Answer, stale: set<nat>)
    requires Inv(s) && ticket in s.inflight && !answer.Refused?
    ensures Tells(s, SaveAnswer(ticket, answer, stale), FinishAndPump(s, s.inflight[ticket], ticket, answer, stale))
  {
    hide Inv, Pump, Pumping, Finish, Queued, StaleAnswers;
    assert s.answers + map[] == s.answers;
    if ticket !in s.answers {
      var key := s.inflight[ticket];
      HeadInflight(s, ticket);
      AnsweredPumps(s, ticket, answer);
      FinishPops(s, key, answer);
      var next := Finish(s, key, ticket, answer);
      PumpingUnanswered(next, key);
      PumpAdds(next, key, stale);
      var added := StaleAnswers(QueueOf(s.saves, key)[1..], stale);
      assert s.answers[ticket := answer] + added == s.answers + (map[ticket := answer] + added);
    }
  }

  lemma HeadInflight(s: State, ticket: nat)
    requires Inv(s) && ticket in s.inflight && ticket !in s.answers
    ensures var queue := QueueOf(s.saves, s.inflight[ticket]); queue != [] && queue[0].ticket == ticket
  {
    hide Queued, Disjoint, KeyOk;
  }

  lemma ExitSave(s: State, k: Key, i: int)
    requires Inv(s) && k in s.saves && 0 <= i < |s.saves[k]|
    ensures var t := s.saves[k][i].ticket;
      t in Queued(s.saves) && t !in s.loads && t !in s.answers && (t in s.everSent <==> i == 0)
  {
    hide Queued, Disjoint, Rising, Core;
    assert KeyOk(s, k, true);
    InQueued(s.saves, k, i);
  }

  lemma ExitTellsAll(s: State)
    requires Inv(s)
    ensures ExitTells(s, Exit(s))
  {
    hide Inv, Queued;
    var t := Exit(s);
    forall x | x in s.answers ensures t.answers[x] == s.answers[x] { NotHeld(s, x); }
    forall x | x in s.loads ensures t.answers[x] == LostLoad {}
    forall k: Key, i: int | k in s.saves && 0 <= i < |s.saves[k]|
      ensures s.saves[k][i].ticket in t.answers
      ensures t.answers[s.saves[k][i].ticket] == if i == 0 then Unknown else Refused
    {
      ExitSave(s, k, i);
    }
  }

  lemma ExitTold(s: State)
    requires Inv(s)
    ensures Tells(s, ForceExit, Exit(s))
  {
    hide Inv, ExitTells, Exit;
    ExitTellsAll(s);
  }

  lemma AskLoadTells(s: State, accepted: bool)
    requires Inv(s)
    ensures Tells(s, AskLoad(accepted), Load(s, accepted))
  {
    hide Inv, HasRoom, Admits;
    RoomIs(s);
    assert s.answers + map[] == s.answers;
  }

  lemma LoadAnswerTells(s: State, ticket: nat, answer: Answer)
    requires Inv(s) && ticket in s.loads && !answer.Refused?
    ensures Tells(s, LoadAnswer(ticket, answer), FinishLoad(s, ticket, answer))
  {
    hide Inv;
    LoadUnanswered(s, ticket);
  }

  lemma DrainTells(s: State)
    ensures Tells(s, Drain, NotifyDrained(s.(draining := true, waiters := s.waiters + 1)))
    ensures Tells(s, Shutdown, s.(draining := true))
  {
  }

  lemma SameTells(s: State, e: Event)
    requires || (e.LoadAnswer? && (e.ticket !in s.loads || e.answer.Refused?))
             || (e.SaveAnswer? && (e.ticket !in s.inflight || e.answer.Refused?))
    ensures Tells(s, e, s)
  {
  }

  /**
   Over every run, who is answered what: a valid request is admitted exactly while there is room; a reply
   of the backend reaches the request it is for, as it is; a save is refused in its queue only if it is late
   or has no backend when its turn comes; on exit a load is lost, the save at the backend is unknown, and
   every other is refused. No event answers anyone else.
   */
  lemma AnswersExact(limit: nat, events: seq<Event>, e: Event)
    ensures var s := Run(Start(limit), events);
      if s.exited then Next(s, e).answers == s.answers else Tells(s, e, Next(s, e))
  {
    hide Run, Inv, Tells, Load, FinishLoad, NotifyDrained, SaveRequest, FinishAndPump, Exit;
    RunOk(limit, events);
    var s := Run(Start(limit), events);
    if s.exited { ExitedStays(s, e); } else { EventTells(s, e); }
  }

  lemma ExitedStays(s: State, e: Event)
    requires Inv(s) && s.exited
    ensures Next(s, e).answers == s.answers
  {
    hide KeyOk, Queued, Disjoint, Pump, Finish;
  }

  lemma EventTells(s: State, e: Event)
    requires Inv(s) && !s.exited
    ensures Tells(s, e, Next(s, e))
  {
    hide Inv, Tells, Load, FinishLoad, NotifyDrained, SaveRequest, FinishAndPump, Exit;
    match e
    case AskLoad(accepted) => AskLoadTells(s, accepted);
    case AskSave(key, accepted, stale) => AskSaveTells(s, key, accepted, stale);
    case LoadAnswer(ticket, answer) =>
      if ticket in s.loads && !answer.Refused? { LoadAnswerTells(s, ticket, answer); } else { SameTells(s, e); }
    case SaveAnswer(ticket, answer, stale) =>
      if ticket in s.inflight && !answer.Refused? {
        SaveAnswerTells(s, ticket, answer, stale);
      } else {
        SameTells(s, e);
      }
    case ForceExit => ExitTold(s);
    case _ => DrainTells(s);
  }

  lemma LoadUnanswered(s: State, ticket: nat)
    requires Inv(s) && ticket in s.loads
    ensures ticket !in s.answers
  {
    hide Queued, Disjoint, KeyOk;
  }

  // ---- Who asked for the drain ------------------------------------------------------------------------------

  function Drains(events: seq<Event>): nat {
    if events == [] then 0
    else Drains(events[..|events| - 1]) + if events[|events| - 1].Drain? then 1 else 0
  }

  /** Those who asked for the drain: told, or waiting. */
  function Asked(s: State): nat { |s.acknowledged| + s.waiters }

  lemma {:induction false} PumpAsked(s: State, key: Key, stale: set<nat>)
    ensures Asked(Pump(s, key, stale)) == Asked(s) && Pump(s, key, stale).exited == s.exited
    decreases |QueueOf(s.saves, key)|
  {
    var queue := QueueOf(s.saves, key);
    if queue != [] && queue[0].ticket !in s.answers && queue[0].ticket in stale {
      PumpAsked(Finish(s, key, queue[0].ticket, Refused), key, stale);
    }
  }

  lemma NextAsked(s: State, e: Event)
    requires !Next(s, e).exited
    ensures !s.exited && Asked(Next(s, e)) == Asked(s) + if e.Drain? then 1 else 0
  {
    hide Pump;
    match e
    case AskSave(key, accepted, stale) =>
      PumpAsked(QueuedSave(s, key), key, stale);
    case SaveAnswer(ticket, answer, stale) =>
      if ticket in s.inflight && ticket !in s.answers {
        PumpAsked(Finish(s, s.inflight[ticket], ticket, answer), s.inflight[ticket], stale);
      }
    case _ =>
  }

  /**
   Until the actor is forced out, everyone who asked for the drain waits or has been told once, and all have
   been told when no request is outstanding.
   */
  lemma {:induction false} DrainsCounted(limit: nat, events: seq<Event>)
    ensures var s := Run(Start(limit), events);
      !s.exited ==>
        && |s.acknowledged| + s.waiters == Drains(events)
        && (s.loads == {} && Queued(s.saves) == {} ==> |s.acknowledged| == Drains(events))
  {
    hide Next, KeyOk, Disjoint;
    var s := Run(Start(limit), events);
    RunOk(limit, events);
    if events != [] && !s.exited {
      var before := Run(Start(limit), events[..|events| - 1]);
      NextAsked(before, events[|events| - 1]);
      DrainsCounted(limit, events[..|events| - 1]);
    }
  }
}
