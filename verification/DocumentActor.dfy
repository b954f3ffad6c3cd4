/** The request front as the actor's handlers update it. */
module DocumentActor {
  import Q = DocumentQueue

  class EntityStoreActor {
    const limit: nat
    var pending: int
    var draining: bool
    var exited: bool
    var loads: set<nat>
    var saves: Q.Queues
    var waiters: nat
    var tickets: nat
    var inflight: map<nat, Q.Key>
    var everSent: set<nat>
    var answers: map<nat, Q.Answer>
    var finished: map<Q.Key, seq<nat>>
    var acknowledged: seq<int>

    function View(): Q.State
      reads this
    {
      Q.State(limit, pending, draining, exited, loads, saves, waiters, tickets, inflight, everSent, answers, finished,
        acknowledged)
    }

    constructor (limit: nat)
      ensures View() == Q.Start(limit)
    {
      this.limit, pending, draining, exited, loads, saves, waiters := limit, 0, false, false, {}, map[], 0;
      tickets, inflight, everSent, answers, finished, acknowledged := 0, map[], {}, map[], map[], [];
    }

    method NotifyDrained()
      modifies this
      ensures View() == Q.NotifyDrained(old(View()))
    {
      if !draining || pending != 0 {
        return;
      }
      var i := 0;
      while i < waiters
        invariant 0 <= i <= waiters
        invariant View() == old(View()).(acknowledged := old(acknowledged) + Q.Acks(i, old(pending)))
      {
        acknowledged := acknowledged + [pending];
        i := i + 1;
      }
      waiters := 0;
    }

    method FinishLoad(ticket: nat, answer: Q.Answer)
      modifies this
      ensures View() == Q.FinishLoad(old(View()), ticket, answer)
    {
      if ticket in answers {
        return;
      }
      answers := answers[ticket := answer];
      loads := loads - {ticket};
      pending := pending - 1;
      NotifyDrained();
    }

    method FinishSave(key: Q.Key, ticket: nat, answer: Q.Answer)
      modifies this
      ensures View() == Q.Finish(old(View()), key, ticket, answer)
    {
      hide Q.NotifyDrained;
      if ticket in answers {
        return;
      }
      answers := answers[ticket := answer];
      finished := finished[key := Q.Completed(finished, key) + [ticket]];
      saves := Q.PopFront(saves, key);
      pending := pending - 1;
      NotifyDrained();
    }

    /** Late heads, and heads without a backend, are refused in a loop; then one head is sent. */
    method Pump(key: Q.Key, stale: set<nat>)
      requires Q.Pumping(View(), key)
      modifies this
      ensures Q.Inv(View()) && View() == Q.Pump(old(View()), key, stale)
    {
      hide Q.Finish, Q.SendHead, Q.Core, Q.KeyOk, Q.PopFront;
      Q.PumpOk(View(), key, stale);
      while true
        invariant Q.Pumping(View(), key) && Q.Pump(View(), key, stale) == Q.Pump(old(View()), key, stale)
        decreases |Q.QueueOf(saves, key)|
      {
        if key !in saves {
          return;
        }
        Q.NonEmpty(View(), key, false);
        Q.PumpingUnanswered(View(), key);
        var current := saves[key][0];
        if current.ticket !in stale {
          break;
        }
        Q.FinishOk(View(), key, Q.Refused, false);
        Q.FinishPops(View(), key, Q.Refused);
        FinishSave(key, current.ticket, Q.Refused);
      }
      Send(key);
    }

    method Send(key: Q.Key)
      requires key in saves && saves[key] != []
      modifies this
      ensures View() == Q.SendHead(old(View()), key)
    {
      var head := saves[key][0];
      saves := saves[key := saves[key][0 := head.(sent := true)]];
      inflight := inflight[head.ticket := key];
      everSent := everSent + {head.ticket};
    }

    method Load(accepted: bool)
      modifies this
      ensures View() == Q.Load(old(View()), accepted)
    {
      var ticket := tickets;
      tickets := tickets + 1;
      if !accepted || draining || pending >= limit {
        answers := answers[ticket := Q.Refused];
        return;
      }
      loads := loads + {ticket};
      pending := pending + 1;
    }

    method Save(key: Q.Key, accepted: bool, stale: set<nat>)
      requires Q.Inv(View()) && !exited
      modifies this
      ensures Q.Inv(View()) && View() == Q.SaveRequest(old(View()), key, accepted, stale)
    {
      hide Q.Inv, Q.Pump, Q.Pumping;
      Q.SaveOk(View(), key, accepted, stale);
      Q.QueuedPumps(View(), key);
      var ticket := tickets;
      tickets := tickets + 1;
      if !accepted || draining || pending >= limit {
        answers := answers[ticket := Q.Refused];
        return;
      }
      var first := key !in saves || saves[key] == [];
      saves := Q.Append(saves, key, Q.Save(ticket, false));
      pending := pending + 1;
      if first {
        Pump(key, stale);
      }
    }

    method SaveReply(ticket: nat, answer: Q.Answer, stale: set<nat>)
      requires Q.Inv(View()) && ticket in inflight && !answer.Refused?
      modifies this
      ensures Q.Inv(View()) && View() == Q.FinishAndPump(old(View()), old(inflight)[ticket], ticket, answer, stale)
    {
      hide Q.Inv, Q.Pump, Q.Finish, Q.Pumping;
      Q.SaveAnswerOk(View(), ticket, answer, stale);
      if ticket in answers {
        return;
      }
      Q.AnsweredPumps(View(), ticket, answer);
      var key := inflight[ticket];
      FinishSave(key, ticket, answer);
      Pump(key, stale);
    }

    method Drain()
      modifies this
      ensures View() == Q.NotifyDrained(old(View()).(draining := true, waiters := old(waiters) + 1))
    {
      draining := true;
      waiters := waiters + 1;
      NotifyDrained();
    }
  }
}
