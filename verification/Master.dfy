/** handle_child_req of src/server_reqs.c: the loop over the children, against the one-step
    description in Protocol. */
module Master {
  import opened Protocol

  type Pipes = map<Pid, seq<Packet>>

  /** Which children a request's handler is called for. */
  datatype Audience = Nobody | AllButSender | Everybody

  function Which(req: Req): Audience {
    match req
    case Quiet(_) => Nobody
    case Broadcast(_) => Everybody
    case KickOne(_) => Everybody
    case KickAll => AllButSender
  }

  function Put(pipes: Pipes, x: Pid, ps: seq<Packet>): Pipes
    requires x in pipes
  {
    pipes[x := pipes[x] + ps]
  }

  lemma PutPut(pipes: Pipes, x: Pid, a: seq<Packet>, b: seq<Packet>)
    requires x in pipes
    ensures Put(Put(pipes, x, a), x, b) == Put(pipes, x, a + b)
  {
    assert pipes[x] + a + b == pipes[x] + (a + b);
  }

  lemma PutNothing(pipes: Pipes, x: Pid)
    requires x in pipes
    ensures Put(pipes, x, []) == pipes
  {
    assert pipes[x] + [] == pipes[x];
  }

  /** What calling the handler for one child writes to `x`. */
  function Part(req: Req, src: Pid, serial: int, child: Pid, x: Pid): seq<Packet> {
    match req
    case Quiet(_) => []
    case Broadcast(n) => if x != child then [] else if child == src then Texts(n, src, serial) else Batch(n, src, serial)
    case KickOne(t) =>
      if t != child then []
      else (if x == child then [Packet(Kick, src, serial)] else []) + (if x == src then [Packet(Text, src, serial)] else [])
    case KickAll => if x == child then [Packet(Kick, src, serial)] else []
  }

  function Grow(pipes: Pipes, more: Pid -> seq<Packet>): Pipes {
    map x | x in pipes :: pipes[x] + more(x)
  }

  lemma GrowPut(pipes: Pipes, x: Pid, ps: seq<Packet>, more: Pid -> seq<Packet>)
    requires x in pipes && more(x) == ps && forall y :: y != x ==> more(y) == []
    ensures Grow(pipes, more) == Put(pipes, x, ps)
  {
    forall y | y in pipes ensures Grow(pipes, more)[y] == Put(pipes, x, ps)[y] {
      assert pipes[y] + [] == pipes[y];
    }
  }

  lemma GrowGrow(pipes: Pipes, a: Pid -> seq<Packet>, b: Pid -> seq<Packet>, c: Pid -> seq<Packet>)
    requires forall x :: x in pipes ==> c(x) == a(x) + b(x)
    ensures Grow(Grow(pipes, a), b) == Grow(pipes, c)
  {
    forall x | x in pipes ensures Grow(Grow(pipes, a), b)[x] == Grow(pipes, c)[x] {
      assert pipes[x] + a(x) + b(x) == pipes[x] + (a(x) + b(x));
    }
  }

  lemma GrowSame(pipes: Pipes, a: Pid -> seq<Packet>, b: Pid -> seq<Packet>)
    requires forall x :: x in pipes ==> a(x) == b(x)
    ensures Grow(pipes, a) == Grow(pipes, b)
  {
    forall x | x in pipes ensures Grow(pipes, a)[x] == Grow(pipes, b)[x] {
    }
  }

  lemma GrowNothing(pipes: Pipes, a: Pid -> seq<Packet>)
    requires forall x :: x in pipes ==> a(x) == []
    ensures Grow(pipes, a) == pipes
  {
    forall x | x in pipes ensures Grow(pipes, a)[x] == pipes[x] { assert pipes[x] + [] == pipes[x]; }
  }

  class Master {
    var pipes: Pipes

    constructor (ps: Pipes)
      ensures pipes == ps
    {
      pipes := ps;
    }

    method SendPacket(x: Pid, p: Packet)
      requires x in pipes
      modifies this
      ensures pipes == Put(old(pipes), x, [p])
    {
      pipes := pipes[x := pipes[x] + [p]];
    }

    /** A message in `n` packets, or `n` separate packets. */
    method SendTexts(x: Pid, n: nat, src: Pid, serial: int)
      requires x in pipes
      modifies this
      ensures pipes == Put(old(pipes), x, Texts(n, src, serial))
    {
      PutNothing(pipes, x);
      assert Texts(0, src, serial) == [];
      for i := 0 to n
        invariant x in pipes && pipes == Put(old(pipes), x, Texts(i, src, serial))
      {
        assert Texts(i + 1, src, serial) == Texts(i, src, serial) + [Packet(Text, src, serial)];
        PutPut(old(pipes), x, Texts(i, src, serial), [Packet(Text, src, serial)]);
        SendPacket(x, Packet(Text, src, serial));
      }
    }

    /** req_pass_msg, req_kick_client and req_kick_always. */
    method HandleChild(req: Req, src: Pid, serial: int, child: Pid)
      requires src in pipes && child in pipes
      modifies this
      ensures pipes == Grow(old(pipes), x => Part(req, src, serial, child, x))
      ensures req.Quiet? ==> pipes == old(pipes)
      ensures req.Broadcast? ==> pipes == Put(old(pipes), child, Texts(req.parts, src, serial) + if child == src then [] else [Packet(Done, src, serial)])
      ensures req.KickOne? && req.target != child ==> pipes == old(pipes)
      ensures req.KickOne? && req.target == child ==>
                pipes == Put(Put(old(pipes), child, [Packet(Kick, src, serial)]), src, [Packet(Text, src, serial)])
      ensures req.KickAll? ==> pipes == Put(old(pipes), child, [Packet(Kick, src, serial)])
    {
      ghost var more := x => Part(req, src, serial, child, x);
      match req
      case Quiet(_) => GrowNothing(pipes, more);
      case Broadcast(n) =>
        SendTexts(child, n, src, serial);
        assert Texts(n, src, serial) + [] == Texts(n, src, serial);
        if child != src {
          PutPut(old(pipes), child, Texts(n, src, serial), [Packet(Done, src, serial)]);
          SendPacket(child, Packet(Done, src, serial));
        }
        GrowPut(old(pipes), child, more(child), more);
      case KickOne(t) =>
        if t == child {
          SendPacket(child, Packet(Kick, src, serial));
          SendPacket(src, Packet(Text, src, serial));
          KickGrows(old(pipes), src, serial, child);
        } else {
          GrowNothing(pipes, more);
        }
      case KickAll =>
        SendPacket(child, Packet(Kick, src, serial));
        GrowPut(old(pipes), child, more(child), more);
    }

    /** One request, the children being visited in the order of the child table; data from a process
        that is no child is ignored. */
    method HandleChildReq(ghost net: Net, req: Req, src: Pid, serial: int, order: seq<Pid>)
      requires net.Keys == pipes.Keys
      requires forall x :: x in pipes <==> x in order
      requires forall i, j :: 0 <= i < j < |order| ==> order[i] != order[j]
      modifies this
      ensures pipes == if src in old(pipes) then Grow(old(pipes), x => Flat(Written(net, req, src, serial, x))) else old(pipes)
      ensures pipes.Keys == old(pipes).Keys && forall x :: x in pipes ==> old(pipes)[x] <= pipes[x]
      ensures src in pipes && req.Quiet? ==> forall x :: x in pipes ==>
                pipes[x] == old(pipes)[x] + if x == src then Texts(req.replies, src, serial) + [Packet(Done, src, serial)] else []
      ensures src in pipes && req.Broadcast? ==> forall x :: x in pipes ==>
                pipes[x] == old(pipes)[x] + (Texts(req.parts, src, serial) + [Packet(Done, src, serial)])
      ensures src in pipes && req.KickOne? ==> forall x :: x in pipes ==>
                pipes[x] == old(pipes)[x] + ((if x == req.target then [Packet(Kick, src, serial)] else [])
                                             + if x != src then []
                                               else if req.target in pipes then [Packet(Text, src, serial), Packet(Done, src, serial)]
                                               else [Packet(Done, src, serial)])
      ensures src in pipes && req.KickAll? ==> forall x :: x in pipes ==>
                pipes[x] == old(pipes)[x] + [Packet(if x == src then Done else Kick, src, serial)]
    {
      if src !in pipes {
        return;
      }
      ghost var was := pipes;
      Answer(net, req, src, serial, order);
      GrownIs(was, net, req, src, serial);
    }

    /** The rest of handle_child_req, when the sender is known. */
    method Answer(ghost net: Net, req: Req, src: Pid, serial: int, order: seq<Pid>)
      requires net.Keys == pipes.Keys && src in pipes
      requires forall x :: x in pipes <==> x in order
      requires forall i, j :: 0 <= i < j < |order| ==> order[i] != order[j]
      modifies this
      ensures pipes == Grow(old(pipes), x => Flat(Written(net, req, src, serial, x)))
    {
      GrownFirst(pipes, req, src, serial);
      if Which(req) == Everybody {
        HandleChild(req, src, serial, src);
      }
      if Which(req) != Nobody {
        CallOthers(req, src, serial, order, old(pipes));
      }
      if req.Quiet? {
        SendTexts(src, req.replies, src, serial);
      }
      SendPacket(src, Packet(Done, src, serial));
      GrownLast(old(pipes), net, req, src, serial, order);
    }

    /** The loop over the children other than the sender. */
    method CallOthers(req: Req, src: Pid, serial: int, order: seq<Pid>, ghost was: Pipes)
      requires src in pipes && was.Keys == pipes.Keys
      requires forall x :: x in pipes <==> x in order
      requires forall i, j :: 0 <= i < j < |order| ==> order[i] != order[j]
      requires pipes == Grow(was, x => SoFar(req, src, serial, [], x))
      modifies this
      ensures pipes == Grow(was, x => SoFar(req, src, serial, order, x))
    {
      for i := 0 to |order|
        invariant pipes.Keys == was.Keys && src in pipes
        invariant pipes == Grow(was, x => SoFar(req, src, serial, order[..i], x))
      {
        var child := order[i];
        if child != src {
          HandleChild(req, src, serial, child);
        }
        TakeNext(order, i);
        GrownNext(was, req, src, serial, order[..i], child);
      }
      assert order[..|order|] == order;
    }
  }

  lemma GrownIs(was: Pipes, net: Net, req: Req, src: Pid, serial: int)
    requires src in was && net.Keys == was.Keys
    ensures var now := Grow(was, x => Flat(Written(net, req, src, serial, x)));
            && now.Keys == was.Keys && (forall x :: x in now ==> was[x] <= now[x])
            && forall x :: x in now ==>
                 match req
                 case Quiet(n) => now[x] == was[x] + if x == src then Texts(n, src, serial) + [Packet(Done, src, serial)] else []
                 case Broadcast(n) => now[x] == was[x] + (Texts(n, src, serial) + [Packet(Done, src, serial)])
                 case KickOne(t) =>
                   now[x] == was[x] + ((if x == t then [Packet(Kick, src, serial)] else [])
                                       + if x != src then [] else if t in now then [Packet(Text, src, serial), Packet(Done, src, serial)]
                                         else [Packet(Done, src, serial)])
                 case KickAll => now[x] == was[x] + [Packet(if x == src then Done else Kick, src, serial)]
  {
    var now := Grow(was, x => Flat(Written(net, req, src, serial, x)));
    forall x | x in now ensures now[x] == was[x] + Flat(Written(net, req, src, serial, x)) {
    }
    forall x | x in now { WrittenIs(net, req, src, serial, x); }
  }

  lemma TakeNext(order: seq<Pid>, i: nat)
    requires i < |order|
    ensures order[..i + 1] == order[..i] + [order[i]]
    ensures (forall a, b :: 0 <= a < b < |order| ==> order[a] != order[b]) ==> order[i] !in order[..i]
  {
  }

  lemma KickGrows(pipes: Pipes, src: Pid, serial: int, child: Pid)
    requires src in pipes && child in pipes
    ensures Grow(pipes, x => Part(KickOne(child), src, serial, child, x))
         == Put(Put(pipes, child, [Packet(Kick, src, serial)]), src, [Packet(Text, src, serial)])
  {
    var more := x => Part(KickOne(child), src, serial, child, x);
    if child == src {
      PutPut(pipes, src, [Packet(Kick, src, serial)], [Packet(Text, src, serial)]);
      GrowPut(pipes, src, more(src), more);
    } else {
      var first := x => if x == child then [Packet(Kick, src, serial)] else [];
      var second := x => if x == src then [Packet(Text, src, serial)] else [];
      GrowPut(pipes, child, first(child), first);
      GrowPut(Put(pipes, child, first(child)), src, second(src), second);
      GrowGrow(pipes, first, second, more);
    }
  }

  /** What the handler has sent to `x` when it has been called for the sender, if at all, and for
      `seen`. */
  ghost function SoFar(req: Req, src: Pid, serial: int, seen: seq<Pid>, x: Pid): seq<Packet> {
    (if Which(req) == Everybody then Part(req, src, serial, src, x) else []) + Others(req, src, serial, seen, x)
  }

  ghost function Others(req: Req, src: Pid, serial: int, seen: seq<Pid>, x: Pid): seq<Packet> {
    if seen == [] then []
    else
      var child := seen[|seen| - 1];
      Others(req, src, serial, seen[..|seen| - 1], x) + if child == src then [] else Part(req, src, serial, child, x)
  }

  lemma GrownFirst(pipes: Pipes, req: Req, src: Pid, serial: int)
    ensures Grow(pipes, x => SoFar(req, src, serial, [], x))
         == if Which(req) == Everybody then Grow(pipes, x => Part(req, src, serial, src, x)) else pipes
  {
    var sofar := x => SoFar(req, src, serial, [], x);
    if Which(req) == Everybody {
      GrowSame(pipes, sofar, x => Part(req, src, serial, src, x));
    } else {
      GrowNothing(pipes, sofar);
    }
  }

  lemma GrownNext(was: Pipes, req: Req, src: Pid, serial: int, seen: seq<Pid>, child: Pid)
    ensures var was' := Grow(was, x => SoFar(req, src, serial, seen, x));
            Grow(was, x => SoFar(req, src, serial, seen + [child], x))
            == if child == src then was' else Grow(was', x => Part(req, src, serial, child, x))
  {
    var now := x => SoFar(req, src, serial, seen + [child], x);
    var before := x => SoFar(req, src, serial, seen, x);
    assert (seen + [child])[..|seen|] == seen;
    if child == src {
      GrowSame(was, now, before);
    } else {
      GrowGrow(was, before, x => Part(req, src, serial, child, x), now);
    }
  }

  /** Among the other children, at most the target of a kick causes a text to the sender. */
  lemma {:induction false} OthersAre(req: Req, src: Pid, serial: int, seen: seq<Pid>, x: Pid)
    requires forall i, j :: 0 <= i < j < |seen| ==> seen[i] != seen[j]
    ensures Others(req, src, serial, seen, x) ==
            if x == src then
              (if req.KickOne? && req.target in seen && req.target != src then [Packet(Text, src, serial)] else [])
            else if x in seen then Part(req, src, serial, x, x)
            else []
  {
    if seen != [] {
      var front, child := seen[..|seen| - 1], seen[|seen| - 1];
      assert seen == front + [child] && child !in front;
      OthersAre(req, src, serial, front, x);
    }
  }

  lemma WrittenParts(net: Net, req: Req, src: Pid, serial: int, order: seq<Pid>, x: Pid)
    requires src in net && x in net && forall y :: y in net <==> y in order
    requires forall i, j :: 0 <= i < j < |order| ==> order[i] != order[j]
    ensures Flat(Written(net, req, src, serial, x)) ==
            (if Which(req) == Nobody then [] else SoFar(req, src, serial, order, x))
            + if x != src then [] else (if req.Quiet? then Texts(req.replies, src, serial) else []) + [Packet(Done, src, serial)]
  {
    OthersAre(req, src, serial, order, x);
    var bs := Written(net, req, src, serial, x);
    if |bs| == 1 {
      FlatOne(bs[0]);
      assert bs == [bs[0]];
    } else if |bs| == 2 {
      FlatOne(bs[0]);
      assert bs[..1] == [bs[0]];
    }
  }

  lemma GrownLast(was: Pipes, net: Net, req: Req, src: Pid, serial: int, order: seq<Pid>)
    requires src in was && net.Keys == was.Keys && forall x :: x in was <==> x in order
    requires forall i, j :: 0 <= i < j < |order| ==> order[i] != order[j]
    ensures var called := if Which(req) == Nobody then was else Grow(was, x => SoFar(req, src, serial, order, x));
            var replied := if req.Quiet? then Put(called, src, Texts(req.replies, src, serial)) else called;
            Put(replied, src, [Packet(Done, src, serial)]) == Grow(was, x => Flat(Written(net, req, src, serial, x)))
  {
    var sofar := x => if Which(req) == Nobody then [] else SoFar(req, src, serial, order, x);
    var texts := if req.Quiet? then Texts(req.replies, src, serial) else [];
    var last := x => if x != src then [] else texts + [Packet(Done, src, serial)];
    var called := Grow(was, sofar);
    if Which(req) == Nobody { GrowNothing(was, sofar); } else { GrowSame(was, sofar, x => SoFar(req, src, serial, order, x)); }
    PutPut(called, src, texts, [Packet(Done, src, serial)]);
    PutNothing(called, src);
    GrowPut(called, src, last(src), last);
    forall x | x in was ensures Flat(Written(net, req, src, serial, x)) == sofar(x) + last(x) {
      WrittenParts(net, req, src, serial, order, x);
    }
    GrowGrow(was, sofar, last, x => Flat(Written(net, req, src, serial, x)));
  }
}
