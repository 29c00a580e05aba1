/** Requests between the client processes and the master: send_master and poll_requests of
    src/client_reqs.c against handle_child_req and the handlers of src/server_reqs.c.  Each child
    has one packet pipe to the master and one back, both first-in-first-out; the master handles one
    request at a time and writes its packets one by one, while the children go on reading and
    sending. */
module Protocol {
  import opened Guard

  type Pid = int

  /** Text is any packet that does not end a batch; Done is REQ_ALLDONE. */
  datatype Kind = Text | Done | Kick

  /** A packet, with the request that caused it: its sender and its number among the sender's. */
  datatype Packet = Packet(kind: Kind, src: Pid, serial: int)

  /** What a request makes the master send.  Quiet stands for every request that is answered to
      its sender alone, known or not. */
  datatype Req = Quiet(replies: nat) | Broadcast(parts: nat) | KickOne(target: Pid) | KickAll

  /** `inbox` is the pipe to the master, `pipe` the pipe back, and `due` what the request in hand is
      still to write to that.  The rest is history: the number of requests sent, all batches ever
      begun, the packets read, and whether the latest request was sent with nothing unread, due or
      unhandled and nothing from others came before its answer. */
  datatype Child = Child(alive: bool, waiting: bool, inbox: seq<Req>, pipe: seq<Packet>, due: seq<Packet>,
                         sent: int, batches: seq<seq<Packet>>, taken: int, clean: bool)

  type Net = map<Pid, Child>

  /** Handle takes a request in hand, and Emit writes one packet of it to one child.  The children's
      packets are written in any order here, so that the master's own order is one of many. */
  datatype Event =
    | Connect(pid: Pid)
    | Send(pid: Pid, req: Req)
    | Handle(pid: Pid)
    | Emit(pid: Pid)
    | Read(pid: Pid)
    | Exit(pid: Pid)
    | Reap(pid: Pid)

  const NEWBORN := Child(true, false, [], [], [], 0, [], 0, true)

  /** All that a child has still to read of what the master has begun to write. */
  function Coming(c: Child): seq<Packet> { c.pipe + c.due }

  function Texts(n: nat, src: Pid, serial: int): (ps: seq<Packet>)
    ensures |ps| == n && forall i :: 0 <= i < n ==> ps[i] == Packet(Text, src, serial)
  {
    seq(n, _ => Packet(Text, src, serial))
  }

  function Batch(n: nat, src: Pid, serial: int): seq<Packet> {
    Texts(n, src, serial) + [Packet(Done, src, serial)]
  }

  /** What a request writes to one child's pipe, the final REQ_ALLDONE included. */
  function Written(net: Net, req: Req, src: Pid, serial: int, to: Pid): seq<seq<Packet>> {
    match req
    case Quiet(n) => if to == src then [Batch(n, src, serial)] else []
    case Broadcast(n) => [Batch(n, src, serial)]
    case KickOne(t) =>
      (if to == t then [[Packet(Kick, src, serial)]] else [])
      + (if to == src then [Batch(if t in net then 1 else 0, src, serial)] else [])
    case KickAll => if to == src then [Batch(0, src, serial)] else [[Packet(Kick, src, serial)]]
  }

  function Flat(bs: seq<seq<Packet>>): seq<Packet> {
    if bs == [] then [] else Flat(bs[..|bs| - 1]) + bs[|bs| - 1]
  }

  function Deliver(c: Child, own: bool, bs: seq<seq<Packet>>): Child {
    c.(due := c.due + Flat(bs),
       batches := c.batches + bs,
       inbox := if own && c.inbox != [] then c.inbox[1..] else c.inbox,
       clean := c.clean && (own || bs == [] || c.inbox == []))
  }

  function Handled(net: Net, pid: Pid): Net
    requires pid in net && net[pid].inbox != []
  {
    var c := net[pid];
    map x | x in net :: Deliver(net[x], x == pid, Written(net, c.inbox[0], pid, c.sent - |c.inbox|, x))
  }

  /** The next packet that is due to a child. */
  function Emitted(c: Child): Child
    requires c.due != []
  {
    c.(pipe := c.pipe + [c.due[0]], due := c.due[1..])
  }

  /** No request is in hand. */
  predicate Idle(net: Net) {
    forall x :: x in net ==> net[x].due == []
  }

  /** One packet of poll_requests. */
  function Polled(c: Child): Child
    requires c.pipe != []
  {
    var d := c.(pipe := c.pipe[1..], taken := c.taken + 1);
    match c.pipe[0].kind
    case Text => d
    case Done => d.(waiting := false)
    case Kick => d.(alive := false)
  }

  /** An event that is not enabled changes nothing.  The master takes a request in hand, and children
      come to it and are waited for, only when it has none. */
  function Step(net: Net, e: Event): Net {
    match e
    case Connect(pid) => if pid !in net && Idle(net) then net[pid := NEWBORN] else net
    case Send(pid, req) =>
      if pid in net && net[pid].alive && !net[pid].waiting then
        var c := net[pid];
        net[pid := c.(waiting := true, inbox := c.inbox + [req], sent := c.sent + 1, clean := Coming(c) == [] && c.inbox == [])]
      else net
    case Handle(pid) => if pid in net && net[pid].inbox != [] && Idle(net) then Handled(net, pid) else net
    case Emit(pid) => if pid in net && net[pid].due != [] then net[pid := Emitted(net[pid])] else net
    case Read(pid) => if pid in net && net[pid].alive && net[pid].pipe != [] then net[pid := Polled(net[pid])] else net
    case Exit(pid) => if pid in net then net[pid := net[pid].(alive := false)] else net
    case Reap(pid) => if pid in net && !net[pid].alive && Idle(net) then net - {pid} else net
  }

  function Run(net: Net, es: seq<Event>): Net {
    if es == [] then net else Step(Run(net, es[..|es| - 1]), es[|es| - 1])
  }

  /** What each event does to the child it is about. */
  lemma StepIs(net: Net, e: Event)
    requires e.pid in net || e.Connect?
    ensures var now, x := Step(net, e), e.pid;
            match e
            case Connect(_) =>
              x !in net && Idle(net) ==>
                x in now && now[x].alive && !now[x].waiting && now[x].inbox == [] && now[x].pipe == now[x].due == []
            case Send(_, req) =>
              x in now && if net[x].alive && !net[x].waiting
                          then now[x].waiting && now[x].inbox == net[x].inbox + [req] && now[x].sent == net[x].sent + 1
                               && (now[x].clean <==> net[x].pipe == net[x].due == [] && net[x].inbox == [])
                          else now == net
            case Handle(_) => x in now && now[x].inbox == if Idle(net) && net[x].inbox != [] then net[x].inbox[1..] else net[x].inbox
            case Emit(_) =>
              x in now && now[x].pipe + now[x].due == net[x].pipe + net[x].due && (net[x].due != [] ==> |now[x].due| == |net[x].due| - 1)
            case Read(_) =>
              x in now && if net[x].alive && net[x].pipe != []
                          then var kind := net[x].pipe[0].kind;
                               && now[x].pipe == net[x].pipe[1..] && now[x].due == net[x].due && now[x].inbox == net[x].inbox
                               && (now[x].alive <==> kind != Kick) && (now[x].waiting <==> net[x].waiting && kind != Done)
                          else now == net
            case Exit(_) => x in now && !now[x].alive && now[x].pipe == net[x].pipe && now[x].inbox == net[x].inbox
            case Reap(_) => x in now <==> net[x].alive || !Idle(net)
    ensures !e.Handle? ==> forall y :: y != e.pid ==> (y in Step(net, e) <==> y in net) && (y in net ==> Step(net, e)[y] == net[y])
  {
    if e.Emit? && net[e.pid].due != [] { EmittedComing(net[e.pid]); }
  }

  // batches

  predicate Ender(p: Packet) { p.kind != Text }

  /** Any number of texts, then one REQ_ALLDONE or one kick. */
  predicate IsBatch(b: seq<Packet>) {
    b != [] && Ender(b[|b| - 1]) && forall i :: 0 <= i < |b| - 1 ==> b[i].kind == Text
  }

  ghost predicate AllBatches(bs: seq<seq<Packet>>) {
    forall i :: 0 <= i < |bs| ==> IsBatch(bs[i])
  }

  lemma FlatOne(b: seq<Packet>)
    ensures Flat([b]) == b
  {
    assert [b][..0] == [] && Flat([]) + b == b;
  }

  lemma WrittenBatches(net: Net, req: Req, src: Pid, serial: int, to: Pid)
    ensures AllBatches(Written(net, req, src, serial, to)) && (to == src ==> Written(net, req, src, serial, to) != [])
  {
  }

  lemma WrittenBy(net: Net, req: Req, src: Pid, serial: int, to: Pid)
    ensures forall p :: p in Flat(Written(net, req, src, serial, to)) ==> p.src == src && p.serial == serial
  {
    var bs := Written(net, req, src, serial, to);
    if |bs| == 1 {
      FlatOne(bs[0]);
      assert bs == [bs[0]];
    } else if |bs| == 2 {
      FlatOne(bs[0]);
      assert bs[..1] == [bs[0]];
    }
  }

  /** What it is, request by request: an answer to the sender; a message to every child, and to each
      its own end; a kick for one child, and word of it to the sender; or a kick for all others. */
  lemma WrittenIs(net: Net, req: Req, src: Pid, serial: int, to: Pid)
    ensures var ps, text, done, kick := Flat(Written(net, req, src, serial, to)), Packet(Text, src, serial), Packet(Done, src, serial), Packet(Kick, src, serial);
            match req
            case Quiet(n) => ps == if to == src then Texts(n, src, serial) + [done] else []
            case Broadcast(n) => ps == Texts(n, src, serial) + [done]
            case KickOne(t) =>
              ps == (if to == t then [kick] else []) + if to != src then [] else if t in net then [text, done] else [done]
            case KickAll => ps == [if to == src then done else kick]
  {
    match req
    case Quiet(n) => FlatOne(Batch(n, src, serial));
    case Broadcast(n) => FlatOne(Batch(n, src, serial));
    case KickOne(t) => KickOneIs(net, t, src, serial, to);
    case KickAll =>
      BatchEmpty(src, serial);
      FlatOne([Packet(if to == src then Done else Kick, src, serial)]);
  }

  lemma BatchEmpty(src: Pid, serial: int)
    ensures Batch(0, src, serial) == [Packet(Done, src, serial)]
    ensures Batch(1, src, serial) == [Packet(Text, src, serial), Packet(Done, src, serial)]
  {
    assert Texts(0, src, serial) == [] && Texts(1, src, serial) == [Packet(Text, src, serial)];
  }

  lemma KickOneIs(net: Net, t: Pid, src: Pid, serial: int, to: Pid)
    ensures Flat(Written(net, KickOne(t), src, serial, to))
         == (if to == t then [Packet(Kick, src, serial)] else [])
            + if to != src then [] else if t in net then [Packet(Text, src, serial), Packet(Done, src, serial)] else [Packet(Done, src, serial)]
  {
    var kicked := if to == t then [[Packet(Kick, src, serial)]] else [];
    var answer := if to == src then [Batch(if t in net then 1 else 0, src, serial)] else [];
    FlatJoin(kicked, answer);
    FlatOne([Packet(Kick, src, serial)]);
    FlatOne(Batch(if t in net then 1 else 0, src, serial));
    BatchEmpty(src, serial);
  }

  lemma {:induction false} FlatJoin(a: seq<seq<Packet>>, b: seq<seq<Packet>>)
    ensures Flat(a + b) == Flat(a) + Flat(b)
  {
    if b == [] {
      assert a + b == a;
    } else {
      FlatJoin(a, b[..|b| - 1]);
      assert (a + b)[..|a + b| - 1] == a + b[..|b| - 1];
    }
  }

  /** Where the first batch of a pipe ends. */
  function FirstEnd(ps: seq<Packet>): Packet
    requires ps != []
  {
    if Ender(ps[0]) || |ps| == 1 then ps[0] else FirstEnd(ps[1..])
  }

  predicate Ends(ps: seq<Packet>) {
    ps != [] ==> Ender(ps[|ps| - 1])
  }

  lemma {:induction false} FirstEndJoin(ps: seq<Packet>, qs: seq<Packet>)
    requires Ends(ps) && ps != []
    ensures FirstEnd(ps + qs) == FirstEnd(ps) && FirstEnd(ps) in ps && Ender(FirstEnd(ps))
  {
    if !Ender(ps[0]) {
      FirstEndJoin(ps[1..], qs);
      assert (ps + qs)[1..] == ps[1..] + qs;
    }
  }

  lemma {:induction false} FlatEnds(bs: seq<seq<Packet>>)
    requires AllBatches(bs)
    ensures Ends(Flat(bs)) && (bs != [] ==> Flat(bs) != [])
  {
    if bs != [] {
      FlatEnds(bs[..|bs| - 1]);
      assert IsBatch(bs[|bs| - 1]);
    }
  }

  // the invariant of one child

  ghost predicate OwnBefore(x: Pid, ps: seq<Packet>, serial: int) {
    forall p :: p in ps && p.src == x ==> p.serial < serial
  }

  predicate Own(x: Pid, c: Child, p: Packet) {
    p.src == x && p.serial == c.sent - 1
  }

  /** What is in the pipe and due is the unread end of what has been begun. */
  ghost predicate Framed(c: Child) {
    forall k: nat {:trigger Opened(k)} :: Opened(k) ==>
      AllBatches(c.batches) && 0 <= c.taken <= |Flat(c.batches)| && Coming(c) == Flat(c.batches)[c.taken..]
  }

  /** What a waiting child can count on. */
  ghost predicate Answered(x: Pid, c: Child) {
    && (c.inbox != [] || Coming(c) != [])
    && (c.clean ==> if c.inbox != [] then |c.inbox| == 1 && Coming(c) == [] else Own(x, c, FirstEnd(Coming(c))))
    && (!c.clean ==> if Coming(c) == [] then |c.inbox| >= 2 else !Own(x, c, FirstEnd(Coming(c))))
  }

  ghost predicate Good(x: Pid, c: Child) {
    && Framed(c) && Ends(Coming(c)) && |c.inbox| <= c.sent && OwnBefore(x, Coming(c), c.sent - |c.inbox|)
    && (c.alive && c.waiting ==> Answered(x, c))
  }

  ghost predicate Inv(net: Net) {
    forall x :: x in net ==> Good(x, net[x])
  }

  lemma SliceJoin(f: seq<Packet>, g: seq<Packet>, k: nat)
    requires k <= |f|
    ensures (f + g)[k..] == f[k..] + g
  {
  }

  lemma EndsJoin(ps: seq<Packet>, qs: seq<Packet>)
    requires Ends(ps) && Ends(qs)
    ensures Ends(ps + qs)
  {
    if qs == [] { assert ps + qs == ps; }
  }

  lemma DeliverComing(c: Child, own: bool, bs: seq<seq<Packet>>)
    ensures Coming(Deliver(c, own, bs)) == Coming(c) + Flat(bs)
  {
  }

  lemma DeliverFramed(c: Child, own: bool, bs: seq<seq<Packet>>)
    requires Framed(c) && Ends(Coming(c)) && AllBatches(bs)
    ensures Framed(Deliver(c, own, bs)) && Ends(Coming(Deliver(c, own, bs)))
  {
    assert Opened(0);
    DeliverComing(c, own, bs);
    FlatJoin(c.batches, bs);
    FlatEnds(bs);
    SliceJoin(Flat(c.batches), Flat(bs), c.taken);
    EndsJoin(Coming(c), Flat(bs));
  }

  /** New packets do not change where the first batch of a pipe ends, unless it was empty. */
  lemma FirstAfter(pipe: seq<Packet>, news: seq<Packet>)
    requires Ends(pipe) && Ends(news)
    ensures pipe != [] ==> FirstEnd(pipe + news) == FirstEnd(pipe)
    ensures pipe == [] && news != [] ==> FirstEnd(pipe + news) in news
    ensures pipe == [] ==> pipe + news == news
  {
    if pipe != [] {
      FirstEndJoin(pipe, news);
    } else if news != [] {
      FirstEndJoin(news, []);
      assert pipe + news == news && news + [] == news;
    }
  }

  lemma OwnBeforeJoin(x: Pid, ps: seq<Packet>, qs: seq<Packet>, serial: int, serial': int)
    requires OwnBefore(x, ps, serial) && serial <= serial'
    requires forall p :: p in qs ==> p.src != x || p.serial < serial'
    ensures OwnBefore(x, ps + qs, serial')
  {
  }

  lemma AnsweredOwn(net: Net, x: Pid, c: Child, bs: seq<seq<Packet>>)
    requires Answered(x, c) && Ends(Coming(c)) && c.inbox != [] && |c.inbox| <= c.sent
    requires Ends(Flat(bs)) && Flat(bs) != [] && forall p :: p in Flat(bs) ==> p.src == x && p.serial == c.sent - |c.inbox|
    ensures Answered(x, Deliver(c, true, bs))
  {
    DeliverComing(c, true, bs);
    FirstAfter(Coming(c), Flat(bs));
  }

  lemma DeliverReply(net: Net, x: Pid, c: Child, bs: seq<seq<Packet>>)
    requires Good(x, c) && c.inbox != [] && AllBatches(bs) && bs != []
    requires forall p :: p in Flat(bs) ==> p.src == x && p.serial == c.sent - |c.inbox|
    ensures Good(x, Deliver(c, true, bs))
  {
    DeliverFramed(c, true, bs);
    DeliverComing(c, true, bs);
    FlatEnds(bs);
    OwnBeforeJoin(x, Coming(c), Flat(bs), c.sent - |c.inbox|, c.sent - |c.inbox| + 1);
    if c.alive && c.waiting {
      AnsweredOwn(net, x, c, bs);
    }
  }

  lemma AnsweredOther(x: Pid, c: Child, bs: seq<seq<Packet>>)
    requires Answered(x, c) && Ends(Coming(c)) && |c.inbox| <= c.sent
    requires Ends(Flat(bs)) && (bs != [] ==> Flat(bs) != []) && forall p :: p in Flat(bs) ==> p.src != x
    ensures Answered(x, Deliver(c, false, bs))
  {
    DeliverComing(c, false, bs);
    FirstAfter(Coming(c), Flat(bs));
    if bs == [] {
      assert Flat(bs) == [] && Coming(c) + Flat(bs) == Coming(c);
    }
  }

  lemma DeliverOther(net: Net, x: Pid, c: Child, req: Req, src: Pid, serial: int)
    requires Good(x, c) && src != x
    ensures Good(x, Deliver(c, false, Written(net, req, src, serial, x)))
  {
    var bs := Written(net, req, src, serial, x);
    WrittenBatches(net, req, src, serial, x);
    WrittenBy(net, req, src, serial, x);
    DeliverFramed(c, false, bs);
    DeliverComing(c, false, bs);
    FlatEnds(bs);
    OwnBeforeJoin(x, Coming(c), Flat(bs), c.sent - |c.inbox|, c.sent - |c.inbox|);
    if c.alive && c.waiting {
      AnsweredOther(x, c, bs);
    }
  }

  lemma EmittedComing(c: Child)
    requires c.due != []
    ensures Coming(Emitted(c)) == Coming(c)
  {
    assert c.due == [c.due[0]] + c.due[1..];
  }

  lemma EmittedGood(x: Pid, c: Child)
    requires Good(x, c) && c.due != []
    ensures Good(x, Emitted(c))
  {
    EmittedComing(c);
    assert Framed(Emitted(c)) by { assert Opened(0); }
  }

  lemma PolledComing(c: Child)
    requires c.pipe != []
    ensures Coming(c) != [] && Coming(c)[0] == c.pipe[0] && Coming(Polled(c)) == Coming(c)[1..]
  {
  }

  lemma PolledFramed(c: Child)
    requires Framed(c) && c.pipe != []
    ensures Framed(Polled(c))
  {
    assert Opened(0);
    PolledComing(c);
    NextTaken(Flat(c.batches), c.taken, Coming(c));
  }

  lemma NextTaken(all: seq<Packet>, taken: int, coming: seq<Packet>)
    requires 0 <= taken <= |all| && coming == all[taken..] && coming != []
    ensures taken + 1 <= |all| && coming[1..] == all[taken + 1..]
  {
    TailOfTail(all, taken);
  }

  lemma TailOfTail(ps: seq<Packet>, k: int)
    requires 0 <= k < |ps|
    ensures ps[k..][1..] == ps[k + 1..]
  {
  }

  lemma TailEnds(ps: seq<Packet>)
    requires ps != [] && Ends(ps)
    ensures Ends(ps[1..]) && forall p :: p in ps[1..] ==> p in ps
  {
    if |ps| > 1 { assert ps[1..][|ps| - 2] == ps[|ps| - 1]; }
  }

  lemma PolledAnswered(x: Pid, c: Child)
    requires Answered(x, c) && c.pipe != [] && Ends(Coming(c)) && c.pipe[0].kind == Text
    ensures Answered(x, Polled(c))
  {
    PolledComing(c);
    assert |Coming(c)| > 1;
    assert FirstEnd(Coming(c)) == FirstEnd(Coming(c)[1..]);
  }

  lemma PolledGood(x: Pid, c: Child)
    requires Good(x, c) && c.pipe != []
    ensures Good(x, Polled(c))
  {
    PolledFramed(c);
    PolledComing(c);
    TailEnds(Coming(c));
    if c.pipe[0].kind == Text && c.alive && c.waiting {
      PolledAnswered(x, c);
    }
  }

  // every run

  lemma HandledGood(net: Net, pid: Pid, x: Pid)
    requires Inv(net) && pid in net && net[pid].inbox != [] && x in net
    ensures Good(x, Handled(net, pid)[x])
  {
    var c := net[pid];
    HandledAt(net, pid, x);
    if x == pid {
      var bs := Written(net, c.inbox[0], pid, c.sent - |c.inbox|, x);
      WrittenBatches(net, c.inbox[0], pid, c.sent - |c.inbox|, x);
      WrittenBy(net, c.inbox[0], pid, c.sent - |c.inbox|, x);
      DeliverReply(net, x, c, bs);
    } else {
      DeliverOther(net, x, net[x], c.inbox[0], pid, c.sent - |c.inbox|);
    }
  }

  lemma HandledAt(net: Net, pid: Pid, x: Pid)
    requires pid in net && net[pid].inbox != [] && x in net
    ensures var c := net[pid];
            Handled(net, pid)[x] == Deliver(net[x], x == pid, Written(net, c.inbox[0], pid, c.sent - |c.inbox|, x))
  {
  }

  lemma FreshGood(x: Pid)
    ensures Good(x, NEWBORN)
  {
    assert Flat([]) == [];
  }

  lemma SentGood(x: Pid, c: Child, req: Req)
    requires Good(x, c) && !c.waiting
    ensures Good(x, c.(waiting := true, inbox := c.inbox + [req], sent := c.sent + 1, clean := Coming(c) == [] && c.inbox == []))
  {
    if Coming(c) != [] {
      FirstEndJoin(Coming(c), []);
      assert Coming(c) + [] == Coming(c);
    }
  }

  lemma StepGood(net: Net, e: Event, x: Pid)
    requires Inv(net) && x in Step(net, e)
    ensures Good(x, Step(net, e)[x])
  {
    match e
    case Connect(_) => FreshGood(x);
    case Handle(pid) => if pid in net && net[pid].inbox != [] && Idle(net) { HandledGood(net, pid, x); }
    case _ => if x in net && e.pid == x { OneGood(net, e, x); }
  }

  /** The events that change one child. */
  lemma OneGood(net: Net, e: Event, x: Pid)
    requires x in net && Good(x, net[x]) && e.pid == x && !e.Handle? && x in Step(net, e)
    ensures Good(x, Step(net, e)[x])
  {
    if e.Send? && net[x].alive && !net[x].waiting { SentGood(x, net[x], e.req); }
    if e.Emit? && net[x].due != [] { EmittedGood(x, net[x]); }
    if e.Read? && net[x].pipe != [] { PolledGood(x, net[x]); }
  }

  lemma StepInv(net: Net, e: Event)
    requires Inv(net)
    ensures Inv(Step(net, e))
  {
    forall x | x in Step(net, e) ensures Good(x, Step(net, e)[x]) {
      StepGood(net, e, x);
    }
  }

  lemma {:induction false} RunInv(es: seq<Event>)
    ensures Inv(Run(map[], es))
  {
    if es != [] {
      RunInv(es[..|es| - 1]);
      StepInv(Run(map[], es[..|es| - 1]), es[|es| - 1]);
    }
  }

  /** In every reachable state: what the master writes to a child is a sequence of batches; the child
      has read a beginning of it, its pipe holds what comes next, and what is due completes it; and a
      waiting child has something to read, something due or a request that is still to be handled. */
  lemma Batched(es: seq<Event>, x: Pid)
    requires x in Run(map[], es)
    ensures var c := Run(map[], es)[x];
            && AllBatches(c.batches) && 0 <= c.taken <= |Flat(c.batches)| && c.pipe + c.due == Flat(c.batches)[c.taken..]
            && (c.pipe != [] && c.due == [] ==> Ender(c.pipe[|c.pipe| - 1]))
            && (c.due != [] ==> Ender(c.due[|c.due| - 1]))
            && (c.alive && c.waiting ==> c.pipe != [] || c.due != [] || c.inbox != [])
  {
    RunInv(es);
    var c := Run(map[], es)[x];
    assert Good(x, c);
    assert Opened(0);
    if c.due != [] { assert Coming(c)[|Coming(c)| - 1] == c.due[|c.due| - 1]; }
  }

  /** Only packets are written between a request's being taken in hand and its being done with. */
  ghost predicate OnlyEmits(es: seq<Event>) {
    forall i :: 0 <= i < |es| ==> es[i].Emit?
  }

  lemma {:induction false} EmitsKeep(net: Net, es: seq<Event>, x: Pid)
    requires x in net && OnlyEmits(es)
    ensures x in RunFrom(net, es) && Coming(RunFrom(net, es)[x]) == Coming(net[x])
  {
    if es != [] {
      var mid := RunFrom(net, es[..|es| - 1]);
      EmitsKeep(net, es[..|es| - 1], x);
      if mid[x].due != [] { EmittedComing(mid[x]); }
    }
  }

  /** Whatever the order in which the packets of a request are written: when all have been, each child
      has got what Written says. */
  lemma EmittedWhole(net: Net, pid: Pid, es: seq<Event>, x: Pid)
    requires pid in net && net[pid].inbox != [] && Idle(net) && x in net && OnlyEmits(es)
    requires Idle(RunFrom(Step(net, Handle(pid)), es))
    ensures x in RunFrom(Step(net, Handle(pid)), es)
    ensures var c := net[pid];
            RunFrom(Step(net, Handle(pid)), es)[x].pipe == net[x].pipe + Flat(Written(net, c.inbox[0], pid, c.sent - |c.inbox|, x))
  {
    var begun := Step(net, Handle(pid));
    HandledComing(net, pid, x, Written(net, net[pid].inbox[0], pid, net[pid].sent - |net[pid].inbox|, x));
    EmitsKeep(begun, es, x);
    NothingDue(net[x]);
    NothingDue(RunFrom(begun, es)[x]);
  }

  lemma HandledComing(net: Net, pid: Pid, x: Pid, bs: seq<seq<Packet>>)
    requires pid in net && net[pid].inbox != [] && x in net
    requires bs == Written(net, net[pid].inbox[0], pid, net[pid].sent - |net[pid].inbox|, x)
    ensures x in Handled(net, pid)
    ensures Coming(Handled(net, pid)[x]) == Coming(net[x]) + Flat(bs)
  {
    HandledAt(net, pid, x);
    DeliverComing(net[x], x == pid, bs);
  }

  lemma NothingDue(c: Child)
    requires c.due == []
    ensures Coming(c) == c.pipe
  {
  }

  /** The REQ_ALLDONE that ends a wait is the waiting child's own exactly when its request was
      sent with nothing unread, due or unhandled, and no batch of another child came first. */
  lemma Attribution(es: seq<Event>, x: Pid)
    requires var net := Run(map[], es);
             x in net && net[x].alive && net[x].waiting && net[x].pipe != [] && net[x].pipe[0].kind == Done
    ensures var c := Run(map[], es)[x];
            (c.pipe[0].src == x && c.pipe[0].serial == c.sent - 1) <==> c.clean
  {
    RunInv(es);
    var c := Run(map[], es)[x];
    assert Good(x, c);
    PolledComing(c);
    assert FirstEnd(Coming(c)) == c.pipe[0];
  }

  /** The loop of send_master, as far as the packets in the pipe take it. */
  function PollUntilDone(c: Child): Child
    decreases |c.pipe|
  {
    if c.alive && c.waiting && c.pipe != [] then PollUntilDone(Polled(c)) else c
  }

  /** With all its packets written. */
  function Complete(c: Child): Child {
    c.(pipe := Coming(c), due := [])
  }

  /** One batch, once it has been written, is enough to end the wait, or the child. */
  lemma WaitEnds(x: Pid, c: Child)
    requires Good(x, c) && c.alive && c.waiting && Coming(c) != []
    ensures var d := PollUntilDone(Complete(c));
            (d.alive && !d.waiting && FirstEnd(Coming(c)).kind == Done) || (!d.alive && FirstEnd(Coming(c)).kind == Kick)
  {
    PollEnds(Complete(c));
  }

  lemma {:induction false} PollEnds(c: Child)
    requires Ends(c.pipe) && c.alive && c.waiting && c.pipe != []
    ensures var d := PollUntilDone(c);
            (d.alive && !d.waiting && FirstEnd(c.pipe).kind == Done) || (!d.alive && FirstEnd(c.pipe).kind == Kick)
    decreases |c.pipe|
  {
    FirstEndJoin(c.pipe, []);
    if c.pipe[0].kind == Text {
      TailEnds(c.pipe);
      PollEnds(Polled(c));
    }
  }

  /** Handling another child's request puts a batch in front of an answer `x` waits for. */
  ghost predicate Disturbs(net: Net, e: Event, x: Pid) {
    && e.Handle? && e.pid != x && e.pid in net && net[e.pid].inbox != [] && Idle(net)
    && x in net && net[x].inbox != []
    && Written(net, net[e.pid].inbox[0], e.pid, net[e.pid].sent - |net[e.pid].inbox|, x) != []
  }

  ghost predicate Undisturbed(net: Net, es: seq<Event>, x: Pid) {
    es != [] ==>
      Undisturbed(net, es[..|es| - 1], x) && !Disturbs(RunFrom(net, es[..|es| - 1]), es[|es| - 1], x)
  }

  function RunFrom(net: Net, es: seq<Event>): Net {
    if es == [] then net else Step(RunFrom(net, es[..|es| - 1]), es[|es| - 1])
  }

  lemma CleanStep(net: Net, e: Event, x: Pid)
    requires x in net && e != Reap(x) && !(e.Send? && e.pid == x)
    ensures x in Step(net, e) && (Step(net, e)[x].clean <==> net[x].clean && !Disturbs(net, e, x))
  {
    if e.Handle? && e.pid in net && net[e.pid].inbox != [] && Idle(net) { CleanHandled(net, e.pid, x); }
  }

  lemma CleanHandled(net: Net, pid: Pid, x: Pid)
    requires x in net && pid in net && net[pid].inbox != [] && Idle(net)
    ensures x in Handled(net, pid) && (Handled(net, pid)[x].clean <==> net[x].clean && !Disturbs(net, Handle(pid), x))
  {
    HandledAt(net, pid, x);
  }

  /** What `clean` records: since `x` sent its latest request, with both its pipes empty and nothing
      due, no other child's request has put a batch before the answer. */
  lemma {:induction false} CleanHistory(net: Net, x: Pid, req: Req, es: seq<Event>)
    requires x in net && net[x].alive && !net[x].waiting
    requires forall e :: e in es ==> e != Reap(x) && !(e.Send? && e.pid == x)
    ensures var start := Step(net, Send(x, req));
            x in RunFrom(start, es) && (RunFrom(start, es)[x].clean <==>
              net[x].pipe == [] && net[x].due == [] && net[x].inbox == [] && Undisturbed(start, es, x))
  {
    if es != [] {
      var front, last, start := es[..|es| - 1], es[|es| - 1], Step(net, Send(x, req));
      assert es == front + [last];
      CleanHistory(net, x, req, front);
      CleanStep(RunFrom(start, front), last, x);
    }
  }

  lemma RunNext(es: seq<Event>, e: Event)
    ensures Run(map[], es + [e]) == Step(Run(map[], es), e)
  {
    assert (es + [e])[..|es|] == es;
  }

  lemma RunOne(es: seq<Event>, e: Event, net: Net, net': Net)
    requires Run(map[], es) == net && Step(net, e) == net'
    ensures Run(map[], es + [e]) == net'
  {
    RunNext(es, e);
  }

  /** Child 1 broadcasts a message of one part and child 2, which is idle, reads the part and asks the
      master something before the end of the broadcast is written. */
  function InBetween(): seq<Event> {
    [] + [Connect(1)] + [Connect(2)] + [Send(1, Broadcast(1))] + [Handle(1)] + [Emit(2)] + [Read(2)]
  }

  function Broadcaster(due: seq<Packet>): Child {
    Child(true, true, [], [], due, 1, [Batch(1, 1, 0)], 0, true)
  }

  function Listener(pipe: seq<Packet>, due: seq<Packet>, taken: int): Child {
    Child(true, false, [], pipe, due, 0, [Batch(1, 1, 0)], taken, true)
  }

  function Asked(req: Req): Child { NEWBORN.(waiting := true, inbox := [req], sent := 1) }

  lemma AfterOneRequest(es: seq<Event>, req: Req)
    requires es == [] + [Connect(1)] + [Connect(2)] + [Send(1, req)]
    ensures Run(map[], es) == map[1 := Asked(req), 2 := NEWBORN]
  {
    var none: seq<Event> := [];
    RunOne(none, Connect(1), map[], map[1 := NEWBORN]);
    RunOne(none + [Connect(1)], Connect(2), map[1 := NEWBORN], map[1 := NEWBORN, 2 := NEWBORN]);
    assert [] + [req] == [req];
    RunOne(none + [Connect(1)] + [Connect(2)], Send(1, req), map[1 := NEWBORN, 2 := NEWBORN], map[1 := Asked(req), 2 := NEWBORN]);
  }

  lemma AfterInBetween()
    ensures Run(map[], InBetween()) == map[1 := Broadcaster(Batch(1, 1, 0)), 2 := Listener([], [Packet(Done, 1, 0)], 1)]
  {
    var text, done, all := Packet(Text, 1, 0), Packet(Done, 1, 0), Batch(1, 1, 0);
    var asked := Asked(Broadcast(1));
    HandledBroadcast(asked);
    var es: seq<Event> := [] + [Connect(1)] + [Connect(2)] + [Send(1, Broadcast(1))];
    AfterOneRequest(es, Broadcast(1));
    RunOne(es, Handle(1), map[1 := asked, 2 := NEWBORN], map[1 := Broadcaster(all), 2 := Listener([], all, 0)]);
    Overheard();
    RunOne(es + [Handle(1)], Emit(2), map[1 := Broadcaster(all), 2 := Listener([], all, 0)],
           map[1 := Broadcaster(all), 2 := Listener([text], [done], 0)]);
    RunOne(es + [Handle(1)] + [Emit(2)], Read(2), map[1 := Broadcaster(all), 2 := Listener([text], [done], 0)],
           map[1 := Broadcaster(all), 2 := Listener([], [done], 1)]);
  }

  lemma Overheard()
    ensures var text, done, one := Packet(Text, 1, 0), Packet(Done, 1, 0), Broadcaster(Batch(1, 1, 0));
            && Step(map[1 := one, 2 := Listener([], Batch(1, 1, 0), 0)], Emit(2)) == map[1 := one, 2 := Listener([text], [done], 0)]
            && Step(map[1 := one, 2 := Listener([text], [done], 0)], Read(2)) == map[1 := one, 2 := Listener([], [done], 1)]
  {
    var text, done, all := Packet(Text, 1, 0), Packet(Done, 1, 0), Batch(1, 1, 0);
    assert all == [text, done];
    assert [] + [text] == [text] && all[1..] == [done] && [text][1..] == [];
  }

  lemma HandledBroadcast(asked: Child)
    requires asked == Asked(Broadcast(1))
    ensures Step(map[1 := asked, 2 := NEWBORN], Handle(1)) == map[1 := Broadcaster(Batch(1, 1, 0)), 2 := Listener([], Batch(1, 1, 0), 0)]
  {
    var all, net := Batch(1, 1, 0), map[1 := asked, 2 := NEWBORN];
    FlatOne(all);
    assert [] + all == all && [] + [all] == [all] && asked.inbox[1..] == [];
    HandledAt(net, 1, 1);
    HandledAt(net, 1, 2);
    assert Handled(net, 1).Keys == {1, 2};
  }

  /** Two empty pipes are not enough: the request that child 2 sends then is taken to be answered by
      the end of the broadcast. */
  lemma EmptyPipesAreNotEnough()
    ensures var net := Run(map[], InBetween());
            2 in net && net[2].pipe == [] && net[2].inbox == []
    ensures var net := Run(map[], InBetween() + [Send(2, Quiet(0))] + [Emit(2)]);
            2 in net && net[2].waiting && net[2].sent == 1 && net[2].pipe == [Packet(Done, 1, 0)]
  {
    AfterInBetween();
    RunNext(InBetween(), Send(2, Quiet(0)));
    RunNext(InBetween() + [Send(2, Quiet(0))], Emit(2));
    assert [] + [Packet(Done, 1, 0)] == [Packet(Done, 1, 0)];
  }

  /** Child 2's request is still to be handled when a broadcast by child 1 ends its wait. */
  function CutShort(): seq<Event> {
    [] + [Connect(1)] + [Connect(2)] + [Send(1, Broadcast(0))] + [Send(2, Quiet(0))] + [Handle(1)] + [Emit(1)] + [Emit(2)] + [Read(2)]
  }

  lemma AfterTwoRequests(es: seq<Event>)
    requires es == [] + [Connect(1)] + [Connect(2)] + [Send(1, Broadcast(0))] + [Send(2, Quiet(0))]
    ensures Run(map[], es) == map[1 := Asked(Broadcast(0)), 2 := Asked(Quiet(0))]
  {
    var front: seq<Event> := [] + [Connect(1)] + [Connect(2)] + [Send(1, Broadcast(0))];
    AfterOneRequest(front, Broadcast(0));
    assert [] + [Quiet(0)] == [Quiet(0)];
    RunOne(front, Send(2, Quiet(0)),
           map[1 := Asked(Broadcast(0)), 2 := NEWBORN], map[1 := Asked(Broadcast(0)), 2 := Asked(Quiet(0))]);
  }

  /** Child 1 has its answer in the pipe, and child 2 the same packet, due, in the pipe or read. */
  function Told(c: Child, pipe: seq<Packet>, due: seq<Packet>): Child {
    c.(pipe := pipe, due := due, batches := [Batch(0, 1, 0)])
  }

  lemma HandledEmpty()
    ensures var done := [Packet(Done, 1, 0)];
            Step(map[1 := Asked(Broadcast(0)), 2 := Asked(Quiet(0))], Handle(1))
            == map[1 := Told(Asked(Broadcast(0)), [], done).(inbox := []), 2 := Told(Asked(Quiet(0)), [], done).(clean := false)]
  {
    var net, all := map[1 := Asked(Broadcast(0)), 2 := Asked(Quiet(0))], Batch(0, 1, 0);
    FlatOne(all);
    assert all == [Packet(Done, 1, 0)] && [] + all == all && [] + [all] == [all] && net[1].inbox[1..] == [];
    HandledAt(net, 1, 1);
    HandledAt(net, 1, 2);
    assert Handled(net, 1).Keys == {1, 2};
  }

  lemma AllTold(one: Child, two: Child, done: seq<Packet>)
    requires |done| == 1 && done[0].kind == Done && one.pipe == two.pipe == [] && one.due == two.due == done && two.alive
    ensures var one', two' := one.(pipe := done, due := []), two.(pipe := done, due := []);
            && Step(map[1 := one, 2 := two], Emit(1)) == map[1 := one', 2 := two]
            && Step(map[1 := one', 2 := two], Emit(2)) == map[1 := one', 2 := two']
            && Step(map[1 := one', 2 := two'], Read(2)) == map[1 := one', 2 := two'.(pipe := [], taken := two.taken + 1, waiting := false)]
  {
    assert [] + [done[0]] == done && done[1..] == [];
  }

  lemma AfterCutShort()
    ensures var net := Run(map[], CutShort());
            && net.Keys == {1, 2} && Idle(net)
            && net[2].alive && !net[2].waiting && net[2].pipe == [] && net[2].inbox == [Quiet(0)] && net[2].sent == 1
  {
    var es: seq<Event> := [] + [Connect(1)] + [Connect(2)] + [Send(1, Broadcast(0))] + [Send(2, Quiet(0))];
    var done := [Packet(Done, 1, 0)];
    var one, two := Told(Asked(Broadcast(0)), [], done).(inbox := []), Told(Asked(Quiet(0)), [], done).(clean := false);
    AfterTwoRequests(es);
    HandledEmpty();
    RunOne(es, Handle(1), map[1 := Asked(Broadcast(0)), 2 := Asked(Quiet(0))], map[1 := one, 2 := two]);
    AllTold(one, two, done);
    var one', two' := one.(pipe := done, due := []), two.(pipe := done, due := []);
    RunOne(es + [Handle(1)], Emit(1), map[1 := one, 2 := two], map[1 := one', 2 := two]);
    RunOne(es + [Handle(1)] + [Emit(1)], Emit(2), map[1 := one', 2 := two], map[1 := one', 2 := two']);
    RunOne(es + [Handle(1)] + [Emit(1)] + [Emit(2)], Read(2), map[1 := one', 2 := two'],
           map[1 := one', 2 := two'.(pipe := [], taken := 1, waiting := false)]);
  }

  /** The request that child 2 then sends comes second. */
  lemma LateReply(net: Net)
    requires net.Keys == {1, 2} && Idle(net)
    requires net[2].alive && !net[2].waiting && net[2].pipe == [] && net[2].inbox == [Quiet(0)] && net[2].sent == 1
    ensures var sent := Step(net, Send(2, Quiet(0)));
            && sent.Keys == {1, 2} && Idle(sent) && sent[2].waiting && sent[2].pipe == []
            && sent[2].inbox == [Quiet(0), Quiet(0)] && sent[2].sent == 2
  {
    assert [Quiet(0)] + [Quiet(0)] == [Quiet(0), Quiet(0)];
  }

  lemma EarlierAnswer(sent: Net)
    requires sent.Keys == {1, 2} && Idle(sent) && sent[2].waiting && sent[2].pipe == []
    requires sent[2].inbox == [Quiet(0), Quiet(0)] && sent[2].sent == 2
    ensures var begun := Handled(sent, 2);
            && 2 in begun && begun[2].due == [Packet(Done, 2, 0)] && begun[2].pipe == [] && begun[2].waiting && begun[2].sent == 2
  {
    HandledAt(sent, 2, 2);
    FlatOne(Batch(0, 2, 0));
    assert Batch(0, 2, 0) == [Packet(Done, 2, 0)] && [] + [Packet(Done, 2, 0)] == [Packet(Done, 2, 0)];
  }

  /** An empty pipe alone is not enough: after a wait that a broadcast has cut short, the next
      request is sent with the pipe empty and taken to be answered by the reply to the one before. */
  lemma EmptyPipeIsNotEnough()
    ensures 2 in Run(map[], CutShort()) && Run(map[], CutShort())[2].pipe == []
    ensures var net := Run(map[], CutShort() + [Send(2, Quiet(0))] + [Handle(2)] + [Emit(2)]);
            2 in net && net[2].waiting && net[2].sent == 2 && net[2].pipe == [Packet(Done, 2, 0)]
  {
    AfterCutShort();
    var net := Run(map[], CutShort());
    LateReply(net);
    EarlierAnswer(Step(net, Send(2, Quiet(0))));
    RunNext(CutShort(), Send(2, Quiet(0)));
    RunNext(CutShort() + [Send(2, Quiet(0))], Handle(2));
    RunNext(CutShort() + [Send(2, Quiet(0))] + [Handle(2)], Emit(2));
    assert [] + [Packet(Done, 2, 0)] == [Packet(Done, 2, 0)];
  }
}
