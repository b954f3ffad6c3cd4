/**
 The service proxy in front of a plugin: it forwards calls under an access list, and during a hot
 reload it holds them back and hands them to the new implementation.
 */
module ServiceProxy {
  import opened Results

  /** Who sent a message: nobody in particular, or an actor on some node. */
  datatype Sender = Anonymous | At(node: nat, actor: nat)

  /**
   `serial` numbers the messages as they arrive. The rest is history: what the direct path would decide
   on arrival, whether only the trust across nodes lets the sender through, and whether a pause held it.
   */
  datatype Message = Message(serial: nat, from: Sender, request: bool, direct: bool, crossOnly: bool, held: bool)

  datatype Forward = Forward(message: Message, target: nat)

  /** The proxy's state, and the history of what it forwarded and rejected. */
  datatype Proxy = Proxy(
    node: nat, crossNode: bool,
    current: nat, version: nat, restricted: bool, allowed: seq<Sender>, paused: bool, buffered: seq<Message>,
    arrived: nat, forwarded: seq<Forward>, rejected: seq<Message>)

  function Start(node: nat, crossNode: bool, target: nat): Proxy {
    Proxy(node, crossNode, target, 1, false, [], false, [], 0, [], [])
  }

  datatype Event =
    | Receive(from: Sender, request: bool)
    | Quiesce
    | Resume(target: nat)
    | SetAcl(allowed: seq<Sender>)

  // ---- Decisions ----------------------------------------------------------------------------------

  predicate Remote(p: Proxy, from: Sender) { from.At? && from.node != p.node }

  /** The access check on the direct path: the list, or a remote node when those are trusted. */
  predicate DirectlyTrusted(p: Proxy, from: Sender) {
    !p.restricted || from in p.allowed || (p.crossNode && Remote(p, from))
  }

  /** The access check when buffered calls are flushed: the list alone. */
  predicate TrustedOnFlush(p: Proxy, from: Sender) { !p.restricted || from in p.allowed }

  /** A sender that only the trust across nodes lets through. */
  predicate CrossOnly(p: Proxy, from: Sender) { p.restricted && p.crossNode && Remote(p, from) && from !in p.allowed }

  /** The two checks disagree on exactly one family of senders. */
  lemma ChecksDisagree(p: Proxy, from: Sender)
    ensures DirectlyTrusted(p, from) == TrustedOnFlush(p, from) <==> !CrossOnly(p, from)
  {
  }

  // ---- Steps ----------------------------------------------------------------------------------------

  function Arrival(p: Proxy, from: Sender, request: bool): Message {
    Message(p.arrived, from, request, DirectlyTrusted(p, from), CrossOnly(p, from), p.paused)
  }

  function Settle(p: Proxy, m: Message, trusted: bool): Proxy {
    if trusted then p.(forwarded := p.forwarded + [Forward(m, p.current)]) else p.(rejected := p.rejected + [m])
  }

  /** Buffered calls in arrival order, each forwarded or rejected. */
  function Flush(p: Proxy, messages: seq<Message>): Proxy
    decreases messages
  {
    if messages == [] then p else Flush(Settle(p, messages[0], TrustedOnFlush(p, messages[0].from)), messages[1..])
  }

  function Next(p: Proxy, e: Event): Proxy {
    match e
    case Receive(from, request) =>
      var m := Arrival(p, from, request);
      var counted := p.(arrived := p.arrived + 1);
      if p.paused then counted.(buffered := p.buffered + [m]) else Settle(counted, m, DirectlyTrusted(p, from))
    case Quiesce => p.(paused := true)
    case Resume(target) =>
      Flush(p.(current := target, version := p.version + 1, paused := false), p.buffered).(buffered := [])
    case SetAcl(allowed) => p.(allowed := allowed, restricted := true)
  }

  function Run(p: Proxy, events: seq<Event>): Proxy {
    if events == [] then p else Next(Run(p, events[..|events| - 1]), events[|events| - 1])
  }

  // ---- Flushing -------------------------------------------------------------------------------------

  predicate SameRules(a: Proxy, b: Proxy) {
    && a.node == b.node && a.crossNode == b.crossNode && a.current == b.current && a.version == b.version
    && a.restricted == b.restricted && a.allowed == b.allowed && a.paused == b.paused && a.buffered == b.buffered
      && a.arrived == b.arrived
  }

  lemma {:induction false} FlushKeepsRules(p: Proxy, messages: seq<Message>)
    ensures SameRules(p, Flush(p, messages))
    decreases messages
  {
    if messages != [] { FlushKeepsRules(Settle(p, messages[0], TrustedOnFlush(p, messages[0].from)), messages[1..]); }
  }

  function Serials(messages: seq<Message>): multiset<nat> {
    if messages == [] then multiset{}
      else multiset{messages[|messages| - 1].serial} + Serials(messages[..|messages| - 1])
  }

  function Sent(forwarded: seq<Forward>): (r: seq<Message>)
    ensures |r| == |forwarded| && forall i | 0 <= i < |r| :: r[i] == forwarded[i].message
  {
    seq(|forwarded|, i requires 0 <= i < |forwarded| => forwarded[i].message)
  }

  lemma SerialsAppend(messages: seq<Message>, m: Message)
    ensures Serials(messages + [m]) == Serials(messages) + multiset{m.serial}
  {
    assert (messages + [m])[..|messages|] == messages;
  }

  lemma SentAppend(forwarded: seq<Forward>, f: Forward)
    ensures Sent(forwarded + [f]) == Sent(forwarded) + [f.message]
  {
  }

  /** All messages the proxy has dealt with or holds, by number. */
  function Known(p: Proxy): multiset<nat> { Serials(Sent(p.forwarded)) + Serials(p.rejected) }

  lemma SettleKnows(p: Proxy, m: Message, trusted: bool)
    ensures Known(Settle(p, m, trusted)) == Known(p) + multiset{m.serial}
  {
    if trusted {
      SentAppend(p.forwarded, Forward(m, p.current));
      SerialsAppend(Sent(p.forwarded), m);
    } else {
      SerialsAppend(p.rejected, m);
    }
  }

  lemma {:induction false} SerialsCons(messages: seq<Message>)
    requires messages != []
    ensures Serials(messages) == multiset{messages[0].serial} + Serials(messages[1..])
  {
    hide Serials;
    var init, last := messages[..|messages| - 1], messages[|messages| - 1];
    assert messages == init + [last];
    SerialsAppend(init, last);
    if init == [] {
      assert messages[1..] == init;
    } else {
      SerialsCons(init);
      SerialsAppend(init[1..], last);
      assert messages[1..] == init[1..] + [last];
    }
  }

  lemma {:induction false} FlushKnows(p: Proxy, messages: seq<Message>)
    ensures Known(Flush(p, messages)) == Known(p) + Serials(messages)
    decreases messages
  {
    hide Settle, Known;
    if messages != [] {
      var trusted := TrustedOnFlush(p, messages[0].from);
      SettleKnows(p, messages[0], trusted);
      FlushKnows(Settle(p, messages[0], trusted), messages[1..]);
      SerialsCons(messages);
    }
  }

  // ---- Each message once -----------------------------------------------------------------------------

  function Upto(n: nat): multiset<nat> { if n == 0 then multiset{} else Upto(n - 1) + multiset{n - 1} }

  lemma {:induction false} UptoOnce(n: nat, k: nat)
    ensures Upto(n)[k] == if k < n then 1 else 0
  {
    if n > 0 { UptoOnce(n - 1, k); }
  }

  /** Every message that arrived is forwarded, rejected or buffered, and in one of these once. */
  predicate Accounted(p: Proxy) { Known(p) + Serials(p.buffered) == Upto(p.arrived) }

  lemma AccountedNext(p: Proxy, e: Event)
    requires Accounted(p)
    ensures Accounted(Next(p, e))
  {
    hide Settle, Flush, Known, Serials, Upto;
    match e
    case Receive(from, request) => AccountedReceive(p, from, request);
    case Quiesce => SameKnown(p, Next(p, e));
    case SetAcl(_) => SameKnown(p, Next(p, e));
    case Resume(target) =>
      var ready := p.(current := target, version := p.version + 1, paused := false);
      SameKnown(p, ready);
      FlushKnows(ready, p.buffered);
      FlushKeepsRules(ready, p.buffered);
      SameKnown(Flush(ready, p.buffered), Next(p, e));
      NoSerials();
  }

  lemma NoSerials()
    ensures Serials([]) == multiset{}
  {
  }

  lemma AccountedReceive(p: Proxy, from: Sender, request: bool)
    requires Accounted(p)
    ensures Accounted(Next(p, Receive(from, request)))
  {
    hide Settle, Known, Serials, Upto;
    var m := Arrival(p, from, request);
    var counted := p.(arrived := p.arrived + 1);
    CountedKnows(p);
    if p.paused {
      SerialsAppend(p.buffered, m);
      SameKnown(counted, Next(p, Receive(from, request)));
    } else {
      SettleKnows(counted, m, DirectlyTrusted(p, from));
      SettleKeeps(counted, m, DirectlyTrusted(p, from));
    }
  }

  lemma SettleKeeps(p: Proxy, m: Message, trusted: bool)
    ensures Settle(p, m, trusted).buffered == p.buffered && Settle(p, m, trusted).arrived == p.arrived
  {
  }

  lemma SameKnown(a: Proxy, b: Proxy)
    requires a.forwarded == b.forwarded && a.rejected == b.rejected
    ensures Known(a) == Known(b)
  {
  }

  lemma CountedKnows(p: Proxy)
    ensures Known(p.(arrived := p.arrived + 1)) == Known(p)
    ensures Upto(p.arrived + 1) == Upto(p.arrived) + multiset{p.arrived}
  {
  }

  lemma {:induction false} RunAccounted(node: nat, crossNode: bool, target: nat, events: seq<Event>)
    ensures Accounted(Run(Start(node, crossNode, target), events))
  {
    hide Accounted, Next;
    if events == [] {
      StartAccounted(node, crossNode, target);
    } else {
      RunAccounted(node, crossNode, target, events[..|events| - 1]);
      AccountedNext(Run(Start(node, crossNode, target), events[..|events| - 1]), events[|events| - 1]);
    }
  }

  lemma StartAccounted(node: nat, crossNode: bool, target: nat)
    ensures Accounted(Start(node, crossNode, target))
  {
    assert Sent([]) == [];
  }

  /** Over every run, each message is forwarded once, rejected once, or still buffered. */
  lemma EachOnce(node: nat, crossNode: bool, target: nat, events: seq<Event>, serial: nat)
    ensures var p := Run(Start(node, crossNode, target), events);
      Serials(Sent(p.forwarded))[serial] + Serials(p.rejected)[serial] + Serials(p.buffered)[serial]
        == if serial < p.arrived then 1 else 0
  {
    hide Run, Serials, Sent;
    RunAccounted(node, crossNode, target, events);
    var p := Run(Start(node, crossNode, target), events);
    UptoOnce(p.arrived, serial);
  }

  // ---- Order -------------------------------------------------------------------------------------------

  predicate Rising(messages: seq<Message>) {
    forall i, j | 0 <= i < j < |messages| :: messages[i].serial < messages[j].serial
  }

  predicate AllBelow(messages: seq<Message>, bound: nat) {
    forall i | 0 <= i < |messages| :: messages[i].serial < bound
  }

  /** What is settled came before what is held, and each list is in arrival order. */
  predicate Ordered(p: Proxy) {
    && Rising(Sent(p.forwarded)) && Rising(p.rejected) && Rising(p.buffered)
    && AllBelow(p.buffered, p.arrived)
    && (var bound := if p.buffered == [] then p.arrived else p.buffered[0].serial;
        AllBelow(Sent(p.forwarded), bound) && AllBelow(p.rejected, bound))
    && (!p.paused ==> p.buffered == [])
  }

  lemma RisingAppend(messages: seq<Message>, m: Message)
    requires Rising(messages) && AllBelow(messages, m.serial)
    ensures Rising(messages + [m]) && AllBelow(messages + [m], m.serial + 1)
  {
  }

  lemma BelowMore(messages: seq<Message>, a: nat, b: nat)
    requires AllBelow(messages, a) && a <= b
    ensures AllBelow(messages, b)
  {
  }

  predicate Settled(p: Proxy, bound: nat) {
    Rising(Sent(p.forwarded)) && Rising(p.rejected) && AllBelow(Sent(p.forwarded), bound) && AllBelow(p.rejected, bound)
  }

  lemma SettleOrdered(p: Proxy, m: Message, trusted: bool)
    requires Settled(p, m.serial)
    ensures Settled(Settle(p, m, trusted), m.serial + 1)
  {
    hide Rising, AllBelow;
    var sent := Sent(p.forwarded);
    SentAppend(p.forwarded, Forward(m, p.current));
    RisingAppend(sent, m);
    RisingAppend(p.rejected, m);
    BelowMore(sent, m.serial, m.serial + 1);
    BelowMore(p.rejected, m.serial, m.serial + 1);
  }

  lemma {:induction false} FlushOrdered(p: Proxy, messages: seq<Message>, bound: nat)
    requires Rising(messages) && AllBelow(messages, bound)
    requires Settled(p, if messages == [] then bound else messages[0].serial)
    ensures Settled(Flush(p, messages), bound)
    decreases messages
  {
    hide Settle, AllBelow;
    if messages != [] {
      var trusted := TrustedOnFlush(p, messages[0].from);
      var next := Settle(p, messages[0], trusted);
      SettleOrdered(p, messages[0], trusted);
      TailBelow(messages, bound);
      SettledMore(next, messages[0].serial + 1, if messages[1..] == [] then bound else messages[1..][0].serial);
      FlushOrdered(next, messages[1..], bound);
    }
  }

  lemma TailBelow(messages: seq<Message>, bound: nat)
    requires messages != [] && AllBelow(messages, bound)
    ensures AllBelow(messages[1..], bound) && messages[0].serial < bound
  {
  }

  lemma SettledMore(p: Proxy, a: nat, b: nat)
    requires Settled(p, a) && a <= b
    ensures Settled(p, b)
  {
    hide Rising;
  }

  lemma OrderedNext(p: Proxy, e: Event)
    requires Ordered(p)
    ensures Ordered(Next(p, e))
  {
    hide Rising, AllBelow, Settle, Flush, Sent;
    match e
    case Receive(from, request) =>
      var m := Arrival(p, from, request);
      var counted := p.(arrived := p.arrived + 1);
      if p.paused {
        RisingAppend(p.buffered, m);
        assert (p.buffered + [m])[0] == if p.buffered == [] then m else p.buffered[0];
      } else {
        EmptyOrdered(p.arrived + 1);
        SettleOrdered(counted, m, DirectlyTrusted(p, from));
        SettleRules(counted, m, DirectlyTrusted(p, from));
      }
    case Quiesce =>
    case SetAcl(_) =>
    case Resume(target) =>
      var ready := p.(current := target, version := p.version + 1, paused := false);
      EmptyOrdered(p.arrived);
      FlushOrdered(ready, p.buffered, p.arrived);
      FlushKeepsRules(ready, p.buffered);
  }

  lemma SettleRules(p: Proxy, m: Message, trusted: bool)
    ensures SameRules(p, Settle(p, m, trusted))
  {
  }

  lemma EmptyOrdered(bound: nat)
    ensures Rising([]) && AllBelow([], bound)
  {
  }

  lemma {:induction false} RunOrdered(node: nat, crossNode: bool, target: nat, events: seq<Event>)
    ensures Ordered(Run(Start(node, crossNode, target), events))
  {
    hide Ordered, Next;
    if events == [] {
      StartOrdered(node, crossNode, target);
    } else {
      RunOrdered(node, crossNode, target, events[..|events| - 1]);
      OrderedNext(Run(Start(node, crossNode, target), events[..|events| - 1]), events[|events| - 1]);
    }
  }

  lemma StartOrdered(node: nat, crossNode: bool, target: nat)
    ensures Ordered(Start(node, crossNode, target))
  {
  }

  /** Over every run, forwards happen in the order of arrival. */
  lemma ForwardsInOrder(node: nat, crossNode: bool, target: nat, events: seq<Event>, i: nat, j: nat)
    requires i < j < |Run(Start(node, crossNode, target), events).forwarded|
    ensures var f := Run(Start(node, crossNode, target), events).forwarded; f[i].message.serial < f[j].message.serial
  {
    hide Run;
    RunOrdered(node, crossNode, target, events);
    var f := Run(Start(node, crossNode, target), events).forwarded;
    assert Sent(f)[i] == f[i].message && Sent(f)[j] == f[j].message;
  }

  // ---- Targets -----------------------------------------------------------------------------------------

  predicate NoResume(events: seq<Event>) { forall i | 0 <= i < |events| :: !events[i].Resume? }

  /** After quiesce nothing is forwarded or rejected until resume. */
  lemma {:induction false} QuietWhilePaused(p: Proxy, events: seq<Event>)
    requires p.paused && NoResume(events)
    ensures var q := Run(p, events);
      q.paused && q.forwarded == p.forwarded && q.rejected == p.rejected && q.current == p.current
  {
    if events != [] {
      var early := events[..|events| - 1];
      QuietWhilePaused(p, early);
      assert !events[|events| - 1].Resume?;
    }
  }

  predicate SentTo(forwarded: seq<Forward>, from: nat, target: nat)
    requires from <= |forwarded|
  {
    forall i | from <= i < |forwarded| :: forwarded[i].target == target
  }

  lemma {:induction false} FlushTarget(p: Proxy, messages: seq<Message>)
    ensures p.forwarded <= Flush(p, messages).forwarded
    ensures SentTo(Flush(p, messages).forwarded, |p.forwarded|, p.current)
    decreases messages
  {
    if messages != [] {
      var next := Settle(p, messages[0], TrustedOnFlush(p, messages[0].from));
      FlushTarget(next, messages[1..]);
      assert next.forwarded == p.forwarded || next.forwarded == p.forwarded + [Forward(messages[0], p.current)];
    }
  }

  /** One step forwards only to the target that is current afterwards. */
  lemma StepTarget(p: Proxy, e: Event)
    ensures p.forwarded <= Next(p, e).forwarded && SentTo(Next(p, e).forwarded, |p.forwarded|, Next(p, e).current)
  {
    hide Flush;
    if e.Resume? {
      var ready := p.(current := e.target, version := p.version + 1, paused := false);
      FlushTarget(ready, p.buffered);
      FlushKeepsRules(ready, p.buffered);
    }
  }

  lemma {:induction false} RunTarget(p: Proxy, events: seq<Event>)
    requires NoResume(events)
    ensures p.forwarded <= Run(p, events).forwarded && SentTo(Run(p, events).forwarded, |p.forwarded|, p.current)
    ensures Run(p, events).current == p.current
  {
    hide Next, SentTo;
    if events == [] {
      NoneSent(p.forwarded, p.current);
    } else {
      var early := events[..|events| - 1];
      RunTarget(p, early);
      StepTarget(Run(p, early), events[|events| - 1]);
      KeepsTarget(Run(p, early), events[|events| - 1]);
      Chain(p.forwarded, Run(p, early).forwarded, Run(p, events).forwarded, p.current);
    }
  }

  lemma NoneSent(forwarded: seq<Forward>, target: nat)
    ensures SentTo(forwarded, |forwarded|, target)
  {
  }

  lemma KeepsTarget(p: Proxy, e: Event)
    requires !e.Resume?
    ensures Next(p, e).current == p.current
  {
  }

  lemma Chain(a: seq<Forward>, b: seq<Forward>, c: seq<Forward>, target: nat)
    requires a <= b && b <= c && SentTo(b, |a|, target) && SentTo(c, |b|, target)
    ensures a <= c && SentTo(c, |a|, target)
  {
    forall i | |a| <= i < |c| ensures c[i].target == target { if i < |b| { assert c[i] == b[i]; } }
  }

  lemma {:induction false} RunSplits(p: Proxy, first: seq<Event>, more: seq<Event>)
    ensures Run(p, first + more) == Run(Run(p, first), more)
    decreases |more|
  {
    hide Next;
    if more == [] {
      assert first + more == first;
    } else {
      RunSplits(p, first, more[..|more| - 1]);
      assert (first + more)[..|first + more| - 1] == first + more[..|more| - 1];
    }
  }

  /**
   A hot reload: whatever happened before, once quiesced nothing reaches the old target, and after
   resume, until the next one, everything goes to the new target.
   */
  lemma ReloadSwitches(p: Proxy, during: seq<Event>, target: nat, after: seq<Event>)
    requires NoResume(during) && NoResume(after)
    ensures var held := Run(p, [Quiesce] + during); var q := Run(p, [Quiesce] + during + [Resume(target)] + after);
      && held.forwarded == p.forwarded
      && p.forwarded <= q.forwarded && SentTo(q.forwarded, |p.forwarded|, target) && q.current == target
  {
    hide Next, SentTo;
    RunSplits(p, [Quiesce], during);
    Paused(p);
    QuietWhilePaused(Run(p, [Quiesce]), during);
    var held := Run(p, [Quiesce] + during);
    RunSplits(p, [Quiesce] + during, [Resume(target)]);
    RunSplits(p, [Quiesce] + during + [Resume(target)], after);
    One(held, Resume(target));
    StepTarget(held, Resume(target));
    Resumed(held, target);
    var resumed := Next(held, Resume(target));
    RunTarget(resumed, after);
    Chain(p.forwarded, resumed.forwarded, Run(resumed, after).forwarded, target);
  }

  lemma One(p: Proxy, e: Event)
    ensures Run(p, [e]) == Next(p, e)
  {
    hide Next;
    assert [e][..0] == [];
    assert Run(p, []) == p;
  }

  lemma Paused(p: Proxy)
    ensures Run(p, [Quiesce]).paused && Run(p, [Quiesce]).forwarded == p.forwarded
    ensures Run(p, [Quiesce]).rejected == p.rejected
  {
    One(p, Quiesce);
  }

  lemma Resumed(p: Proxy, target: nat)
    ensures Next(p, Resume(target)).current == target
  {
    FlushKeepsRules(p.(current := target, version := p.version + 1, paused := false), p.buffered);
  }

  // ---- The pause does not change decisions ------------------------------------------------------------------

  /** No access list arrives while calls are held back. */
  predicate CalmAcl(p: Proxy, events: seq<Event>) {
    if events == [] then true
    else CalmAcl(p, events[..|events| - 1]) && (events[|events| - 1].SetAcl? ==> !Run(p, events[..|events| - 1]).paused)
  }

  /** Exactly the messages trusted on arrival were forwarded, the others rejected. */
  predicate AsOnArrival(forwarded: seq<Forward>, rejected: seq<Message>) {
    (forall i | 0 <= i < |forwarded| :: forwarded[i].message.direct)
      && (forall i | 0 <= i < |rejected| :: !rejected[i].direct)
  }

  /** The one case in which a pause turns a decision around. */
  predicate Turned(m: Message) { m.held && m.crossOnly }

  predicate ForwardedOk(p: Proxy) {
    forall i | 0 <= i < |p.forwarded| ::
      var m := p.forwarded[i].message; m.direct && !Turned(m) && (m.crossOnly ==> p.crossNode)
  }

  predicate RejectedOk(p: Proxy) {
    forall i | 0 <= i < |p.rejected| ::
      var m := p.rejected[i]; (m.direct <==> Turned(m)) && (m.crossOnly ==> p.crossNode)
  }

  /** What was true of a held message on arrival still is. */
  predicate StillTrue(p: Proxy, messages: seq<Message>) {
    forall i | 0 <= i < |messages| ::
      var m := messages[i]; m.held && m.direct == DirectlyTrusted(p, m.from) && m.crossOnly == CrossOnly(p, m.from)
  }

  /** Every settled message was decided as on arrival or turned around, and every held one will be. */
  predicate Decided(p: Proxy) {
    ForwardedOk(p) && RejectedOk(p) && StillTrue(p, p.buffered) && (!p.paused ==> p.buffered == [])
  }

  lemma SettleDecides(p: Proxy, m: Message, trusted: bool)
    requires ForwardedOk(p) && RejectedOk(p) && (m.crossOnly ==> p.crossNode)
    requires if trusted then m.direct && !Turned(m) else m.direct <==> Turned(m)
    ensures ForwardedOk(Settle(p, m, trusted)) && RejectedOk(Settle(p, m, trusted))
  {
  }

  lemma {:induction false} FlushDecides(p: Proxy, messages: seq<Message>)
    requires ForwardedOk(p) && RejectedOk(p) && StillTrue(p, messages)
    ensures ForwardedOk(Flush(p, messages)) && RejectedOk(Flush(p, messages))
    decreases messages
  {
    hide ForwardedOk, RejectedOk, Settle;
    if messages != [] {
      var m := messages[0];
      var trusted := TrustedOnFlush(p, m.from);
      ChecksDisagree(p, m.from);
      SettleDecides(p, m, trusted);
      SettleRules(p, m, trusted);
      StillTrueTail(p, Settle(p, m, trusted), messages);
      FlushDecides(Settle(p, m, trusted), messages[1..]);
    }
  }

  lemma StillTrueTail(p: Proxy, q: Proxy, messages: seq<Message>)
    requires messages != [] && StillTrue(p, messages) && SameRules(p, q)
    ensures StillTrue(q, messages[1..])
  {
  }

  lemma DecidedNext(p: Proxy, e: Event)
    requires Decided(p) && (e.SetAcl? ==> !p.paused)
    ensures Decided(Next(p, e))
  {
    hide Flush, Settle;
    match e
    case Receive(from, request) =>
      var m := Arrival(p, from, request);
      var counted := p.(arrived := p.arrived + 1);
      if !p.paused {
        SettleDecides(counted, m, m.direct);
        SettleRules(counted, m, m.direct);
      }
    case Resume(target) =>
      var ready := p.(current := target, version := p.version + 1, paused := false);
      FlushDecides(ready, p.buffered);
      FlushKeepsRules(ready, p.buffered);
      var flushed := Flush(ready, p.buffered);
      assert ForwardedOk(flushed) && RejectedOk(flushed);
    case _ =>
  }

  lemma {:induction false} RunDecided(node: nat, crossNode: bool, target: nat, events: seq<Event>)
    requires CalmAcl(Start(node, crossNode, target), events)
    ensures Decided(Run(Start(node, crossNode, target), events))
  {
    hide Next, Decided;
    if events == [] {
      StartDecided(node, crossNode, target);
    } else {
      RunDecided(node, crossNode, target, events[..|events| - 1]);
      DecidedNext(Run(Start(node, crossNode, target), events[..|events| - 1]), events[|events| - 1]);
    }
  }

  lemma StartDecided(node: nat, crossNode: bool, target: nat)
    ensures Decided(Start(node, crossNode, target))
  {
  }

  predicate NoneTurned(p: Proxy) {
    (forall i | 0 <= i < |p.forwarded| :: !Turned(p.forwarded[i].message))
      && (forall i | 0 <= i < |p.rejected| :: !Turned(p.rejected[i]))
  }

  /**
   Over every run that leaves the access list alone during pauses, every message is decided as if there
   were no pause, exactly unless one was held whose sender only the trust across nodes lets through.
   Such a message is rejected, always.
   */
  lemma HeldDecision(node: nat, crossNode: bool, target: nat, events: seq<Event>)
    requires CalmAcl(Start(node, crossNode, target), events)
    ensures var p := Run(Start(node, crossNode, target), events);
      && (AsOnArrival(p.forwarded, p.rejected) <==> NoneTurned(p))
      && (forall i | 0 <= i < |p.forwarded| :: p.forwarded[i].message.direct && !Turned(p.forwarded[i].message))
      && (forall i | 0 <= i < |p.rejected| :: p.rejected[i].direct <==> Turned(p.rejected[i]))
  {
    hide Run, Turned;
    RunDecided(node, crossNode, target, events);
  }

  /** Without trust across nodes, and with the access list left alone during pauses, a pause changes no decision. */
  lemma PauseChangesNothing(node: nat, target: nat, events: seq<Event>)
    requires CalmAcl(Start(node, false, target), events)
    ensures var p := Run(Start(node, false, target), events); AsOnArrival(p.forwarded, p.rejected)
  {
    hide Run;
    RunDecided(node, false, target, events);
    RunKeepsNode(Start(node, false, target), events);
  }

  lemma {:induction false} RunKeepsNode(p: Proxy, events: seq<Event>)
    ensures Run(p, events).node == p.node && Run(p, events).crossNode == p.crossNode
  {
    hide Next;
    if events != [] {
      RunKeepsNode(p, events[..|events| - 1]);
      KeepsNode(Run(p, events[..|events| - 1]), events[|events| - 1]);
    }
  }

  lemma KeepsNode(p: Proxy, e: Event)
    ensures Next(p, e).node == p.node && Next(p, e).crossNode == p.crossNode
  {
    hide Flush;
    if e.Resume? { FlushKeepsRules(p.(current := e.target, version := p.version + 1, paused := false), p.buffered); }
  }

  /** A reload during which a call from a trusted node, let through on arrival, is refused. */
  function Reload(list: seq<Sender>, from: Sender, request: bool, next: nat): seq<Event> {
    [SetAcl(list), Quiesce, Receive(from, request), Resume(next)]
  }

  lemma ReloadRefuses(node: nat, target: nat, list: seq<Sender>, from: Sender, request: bool, next: nat)
    requires from.At? && from.node != node && from !in list
    ensures var start := Start(node, true, target); var p := Run(start, Reload(list, from, request, next));
      && CalmAcl(start, Reload(list, from, request, next))
      && p.forwarded == [] && |p.rejected| == 1 && p.rejected[0].from == from && p.rejected[0].direct
      && !AsOnArrival(p.forwarded, p.rejected)
  {
    hide Flush;
    var start := Start(node, true, target);
    var events := Reload(list, from, request, next);
    assert events[..3] == [SetAcl(list), Quiesce, Receive(from, request)]
      && events[..3][..2] == [SetAcl(list), Quiesce];
    assert events[..3][..2][..1] == [SetAcl(list)] && [SetAcl(list)][..0] == [];
    assert Run(start, []) == start;
    var restricted := Next(start, SetAcl(list));
    assert Run(start, [SetAcl(list)]) == restricted;
    assert CalmAcl(start, []) && CalmAcl(start, [SetAcl(list)]);
    var paused := restricted.(paused := true);
    assert Run(start, [SetAcl(list), Quiesce]) == paused && CalmAcl(start, [SetAcl(list), Quiesce]);
    var m := Arrival(paused, from, request);
    var held := paused.(arrived := 1, buffered := [m]);
    assert paused.buffered + [m] == [m];
    assert Run(start, events[..3]) == held && CalmAcl(start, events[..3]);
    assert Run(start, events) == Next(held, Resume(next));
    FlushOne(held.(current := next, version := held.version + 1, paused := false), m);
  }

  lemma FlushOne(p: Proxy, m: Message)
    ensures Flush(p, [m]) == Settle(p, m, TrustedOnFlush(p, m.from))
  {
    assert [m][1..] == [];
  }

  // ---- Decisions, from the events alone -----------------------------------------------------------------------

  /** The list in force: the one of the last SetAcl. */
  function LastAcl(events: seq<Event>): Option<seq<Sender>> {
    if events == [] then None
    else
      var e := events[|events| - 1];
      if e.SetAcl? then Some(e.allowed) else LastAcl(events[..|events| - 1])
  }

  /** A quiesce came, and no resume since. */
  predicate PausedBy(events: seq<Event>) {
    && events != []
    && var e := events[|events| - 1]; e.Quiesce? || (!e.Resume? && PausedBy(events[..|events| - 1]))
  }

  /** The target of the last resume, or the first one. */
  function LastTarget(events: seq<Event>, first: nat): nat {
    if events == [] then first
    else
      var e := events[|events| - 1];
      if e.Resume? then e.target else LastTarget(events[..|events| - 1], first)
  }

  function Count(events: seq<Event>, kind: Event -> bool): nat {
    if events == [] then 0
    else (if kind(events[|events| - 1]) then 1 else 0) + Count(events[..|events| - 1], kind)
  }

  predicate Listed(acl: Option<seq<Sender>>, from: Sender) { acl.None? || from in acl.value }

  predicate FromAfar(node: nat, from: Sender) { from.At? && from.node != node }

  /** A call as it arrives after these events. */
  function Coming(node: nat, crossNode: bool, events: seq<Event>, from: Sender, request: bool): Message {
    var acl := LastAcl(events);
    var afar := crossNode && FromAfar(node, from);
    Message(Count(events, (e: Event) => e.Receive?), from, request, Listed(acl, from) || afar,
      !Listed(acl, from) && afar,
            PausedBy(events))
  }

  /** The calls held since the last resume, in arrival order. */
  function HeldBack(node: nat, crossNode: bool, events: seq<Event>): seq<Message> {
    if events == [] then []
    else
      var init, e := events[..|events| - 1], events[|events| - 1];
      match e
      case Receive(from, request) =>
        HeldBack(node, crossNode, init) + if PausedBy(init) then [Coming(node, crossNode, init, from, request)] else []
      case Resume(_) => []
      case _ => HeldBack(node, crossNode, init)
  }

  /** The messages whose sender is listed, or those whose sender is not, in order. */
  function Chosen(messages: seq<Message>, acl: Option<seq<Sender>>, listed: bool): seq<Message> {
    if messages == [] then []
    else
      var init, m := messages[..|messages| - 1], messages[|messages| - 1];
      Chosen(init, acl, listed) + if Listed(acl, m.from) == listed then [m] else []
  }

  function Aim(messages: seq<Message>, target: nat): (r: seq<Forward>)
    ensures |r| == |messages|
  {
    seq(|messages|, i requires 0 <= i < |messages| => Forward(messages[i], target))
  }

  /** The proxy's rules are those of the events. */
  predicate Follows(p: Proxy, node: nat, crossNode: bool, first: nat, events: seq<Event>) {
    && p.node == node && p.crossNode == crossNode && p.current == LastTarget(events, first)
    && p.version == 1 + Count(events, (e: Event) => e.Resume?) && p.arrived == Count(events, (e: Event) => e.Receive?)
    && p.restricted == LastAcl(events).Some? && (p.restricted ==> p.allowed == LastAcl(events).value)
    && p.paused == PausedBy(events) && p.buffered == HeldBack(node, crossNode, events)
  }

  lemma FollowsNext(p: Proxy, node: nat, crossNode: bool, first: nat, events: seq<Event>, e: Event)
    requires Follows(p, node, crossNode, first, events)
    ensures Follows(Next(p, e), node, crossNode, first, events + [e])
  {
    hide Flush, Settle;
    var longer := events + [e];
    assert longer[..|events|] == events && longer[|events|] == e;
    match e
    case Receive(from, request) =>
      SettleRules(p.(arrived := p.arrived + 1), Arrival(p, from, request), DirectlyTrusted(p, from));
      ArrivalIs(p, node, crossNode, first, events, from, request);
      NotHeld(node, crossNode, events);
    case Resume(target) =>
      FlushKeepsRules(p.(current := target, version := p.version + 1, paused := false), p.buffered);
    case _ =>
  }

  lemma ArrivalIs(p: Proxy, node: nat, crossNode: bool, first: nat, events: seq<Event>, from: Sender, request: bool)
    requires Follows(p, node, crossNode, first, events)
    ensures Arrival(p, from, request) == Coming(node, crossNode, events, from, request)
  {
    hide HeldBack, LastTarget;
  }

  lemma {:induction false} NotHeld(node: nat, crossNode: bool, events: seq<Event>)
    ensures !PausedBy(events) ==> HeldBack(node, crossNode, events) == []
  {
    if events != [] { NotHeld(node, crossNode, events[..|events| - 1]); }
  }

  lemma {:induction false} RunFollows(node: nat, crossNode: bool, first: nat, events: seq<Event>)
    ensures Follows(Run(Start(node, crossNode, first), events), node, crossNode, first, events)
  {
    hide Next, Follows;
    if events == [] {
      StartFollows(node, crossNode, first);
    } else {
      var init := events[..|events| - 1];
      RunFollows(node, crossNode, first, init);
      FollowsNext(Run(Start(node, crossNode, first), init), node, crossNode, first, init, events[|events| - 1]);
      assert init + [events[|events| - 1]] == events;
    }
  }

  lemma StartFollows(node: nat, crossNode: bool, first: nat)
    ensures Follows(Start(node, crossNode, first), node, crossNode, first, [])
  {
  }

  lemma {:induction false} FlushChooses(p: Proxy, messages: seq<Message>, acl: Option<seq<Sender>>)
    requires p.restricted == acl.Some? && (p.restricted ==> p.allowed == acl.value)
    ensures Flush(p, messages).forwarded == p.forwarded + Aim(Chosen(messages, acl, true), p.current)
    ensures Flush(p, messages).rejected == p.rejected + Chosen(messages, acl, false)
    decreases messages
  {
    hide Chosen, Aim;
    if messages == [] {
      NoneChosen(acl, p.current);
    } else {
      var m := messages[0];
      var trusted := TrustedOnFlush(p, m.from);
      FlushChooses(Settle(p, m, trusted), messages[1..], acl);
      ChosenCons(messages, acl, true);
      ChosenCons(messages, acl, false);
      AimCons(m, Chosen(messages[1..], acl, true), p.current);
      if trusted { Regroup(p.forwarded, [Forward(m, p.current)], Aim(Chosen(messages[1..], acl, true), p.current)); }
      else { Regroup(p.rejected, [m], Chosen(messages[1..], acl, false)); }
    }
  }

  lemma NoneChosen(acl: Option<seq<Sender>>, target: nat)
    ensures Chosen([], acl, true) == [] && Chosen([], acl, false) == [] && Aim([], target) == []
  {
  }

  lemma AimCons(m: Message, rest: seq<Message>, target: nat)
    ensures Aim([m] + rest, target) == [Forward(m, target)] + Aim(rest, target)
    ensures Aim([] + rest, target) == Aim(rest, target)
  {
    assert [] + rest == rest;
  }

  lemma Regroup<T>(a: seq<T>, b: seq<T>, c: seq<T>)
    ensures (a + b) + c == a + (b + c)
  {
  }

  lemma {:induction false} ChosenCons(messages: seq<Message>, acl: Option<seq<Sender>>, listed: bool)
    requires messages != []
    ensures Chosen(messages, acl, listed)
         == (if Listed(acl, messages[0].from) == listed then [messages[0]] else []) + Chosen(messages[1..], acl, listed)
  {
    var init := messages[..|messages| - 1];
    if init == [] {
      assert messages[1..] == [];
    } else {
      ChosenCons(init, acl, listed);
      assert init[1..] == messages[1..][..|messages| - 2];
    }
  }

  predicate Trusts(node: nat, crossNode: bool, events: seq<Event>, from: Sender) {
    Listed(LastAcl(events), from) || (crossNode && FromAfar(node, from))
  }

  /** What one more event settles, given the events before it. */
  predicate Settles(node: nat, crossNode: bool, first: nat, events: seq<Event>, e: Event, p: Proxy, q: Proxy) {
    match e
    case Receive(from, request) =>
      var m, direct := Coming(node, crossNode, events, from, request), !PausedBy(events);
      && q.forwarded == p.forwarded + (if direct && Trusts(node, crossNode, events, from)
                                       then [Forward(m, LastTarget(events, first))] else [])
      && q.rejected == p.rejected + (if direct && !Trusts(node, crossNode, events, from) then [m] else [])
    case Resume(target) =>
      var held := HeldBack(node, crossNode, events);
      && q.forwarded == p.forwarded + Aim(Chosen(held, LastAcl(events), true), target)
      && q.rejected == p.rejected + Chosen(held, LastAcl(events), false)
    case _ => q.forwarded == p.forwarded && q.rejected == p.rejected
  }

  /**
   Every decision, from the events before it: a call that arrives outside a pause is forwarded exactly when
   there is no list, the last list has its sender, or it comes from another node and those are trusted. A
   resume forwards the calls held back, in order, whose sender the last list has, and rejects the others.
   Nothing else settles a call.
   */
  lemma DecisionsExact(node: nat, crossNode: bool, first: nat, events: seq<Event>, e: Event)
    ensures var start := Start(node, crossNode, first);
      Settles(node, crossNode, first, events, e, Run(start, events), Run(start, events + [e]))
  {
    hide Run, Flush, HeldBack, LastTarget, LastAcl, Count, PausedBy, Chosen, Aim;
    var p := Run(Start(node, crossNode, first), events);
    RunFollows(node, crossNode, first, events);
    RunSplits(Start(node, crossNode, first), events, [e]);
    One(p, e);
    match e
    case Receive(from, request) => ArrivalIs(p, node, crossNode, first, events, from, request);
    case Resume(target) =>
      FlushChooses(p.(current := target, version := p.version + 1, paused := false), p.buffered, LastAcl(events));
    case _ =>
  }

  /** The version counts the reloads. */
  lemma VersionCounts(node: nat, crossNode: bool, first: nat, events: seq<Event>)
    ensures Run(Start(node, crossNode, first), events).version == 1 + Count(events, (e: Event) => e.Resume?)
  {
    hide Run;
    RunFollows(node, crossNode, first, events);
  }

  // ---- The actor ---------------------------------------------------------------------------------------------

  /** The proxy's state as its handlers update it. */
  class ProxyActor {
    var current: nat
    var version: nat
    var restricted: bool
    var allowed: seq<Sender>
    const node: nat
    const crossNode: bool
    var paused: bool
    var buffered: seq<Message>
    var arrived: nat
    var forwarded: seq<Forward>
    var rejected: seq<Message>

    function View(): Proxy
      reads this
    {
      Proxy(node, crossNode, current, version, restricted, allowed, paused, buffered, arrived, forwarded, rejected)
    }

    constructor (node: nat, crossNode: bool, target: nat)
      ensures View() == Start(node, crossNode, target)
    {
      this.node, this.crossNode, current, version, restricted, allowed := node, crossNode, target, 1, false, [];
      paused, buffered, arrived, forwarded, rejected := false, [], 0, [], [];
    }

    method OnMessage(from: Sender, request: bool)
      modifies this
      ensures View() == Next(old(View()), Receive(from, request))
    {
      var m := Arrival(View(), from, request);
      arrived := arrived + 1;
      if paused {
        buffered := buffered + [m];
        return;
      }
      if restricted {
        var trusted := from in allowed;
        if !trusted && crossNode && from.At? && from.node != node {
          trusted := true;
        }
        if !trusted {
          rejected := rejected + [m];
          return;
        }
      }
      forwarded := forwarded + [Forward(m, current)];
    }

    method OnSetAcl(senders: seq<Sender>)
      modifies this
      ensures View() == Next(old(View()), SetAcl(senders))
    {
      allowed := senders;
      restricted := true;
    }

    method OnQuiesce()
      modifies this
      ensures View() == Next(old(View()), Quiesce)
    {
      paused := true;
    }

    method OnResume(target: nat)
      modifies this
      ensures View() == Next(old(View()), Resume(target))
    {
      current := target;
      version := version + 1;
      paused := false;
      ghost var ready := View();
      var i := 0;
      assert buffered[0..] == buffered;
      while i < |buffered|
        invariant 0 <= i <= |buffered| && buffered == old(buffered)
        invariant SameRules(ready, View()) && Flush(View(), buffered[i..]) == Flush(ready, buffered)
      {
        var b := buffered[i];
        assert buffered[i..][0] == b && buffered[i..][1..] == buffered[i + 1..];
        if restricted && b.from !in allowed {
          rejected := rejected + [b];
        } else {
          forwarded := forwarded + [Forward(b, current)];
        }
        i := i + 1;
      }
      buffered := [];
    }
  }
}
