/** The child's half of the protocol: poll_requests and the wait in send_master
    (src/client_reqs.c), against the one-packet steps of Protocol. */
module Client {
  import opened Protocol

  /** Packets up to and including the next REQ_ALLDONE or kick, or all there are. */
  function PollAll(c: Child): (d: Child)
    ensures |d.pipe| <= |c.pipe| && d.inbox == c.inbox && d.sent == c.sent
    decreases |c.pipe|
  {
    if !c.alive || c.pipe == [] then c
    else if c.pipe[0].kind == Done then Polled(c)
    else PollAll(Polled(c))
  }

  /** One poll, packet by packet: it reads `k` of them, all texts but perhaps the last; it stops after a
      REQ_ALLDONE, which ends a wait, or a kick, which ends the child, or when there is no more. */
  lemma PollAllIs(c: Child) returns (k: nat)
    requires c.alive
    ensures k <= |c.pipe| && (forall i :: 0 <= i < k - 1 ==> c.pipe[i].kind == Text)
    ensures k < |c.pipe| ==> k > 0 && c.pipe[k - 1].kind != Text
    ensures var d, last := PollAll(c), if k > 0 then c.pipe[k - 1].kind else Text;
            && d == c.(pipe := c.pipe[k..], taken := c.taken + k, alive := last != Kick, waiting := c.waiting && last != Done)
            && (ReadsDone(c) <==> last == Done)
  {
    k := FirstRead(c.pipe);
    PollAllAfter(c, k);
  }

  /** How many packets one poll reads. */
  lemma {:induction false} FirstRead(ps: seq<Packet>) returns (k: nat)
    ensures k <= |ps| && (forall i :: 0 <= i < k - 1 ==> ps[i].kind == Text)
    ensures k < |ps| ==> k > 0 && ps[k - 1].kind != Text
    ensures k == 0 ==> ps == []
  {
    if ps == [] {
      k := 0;
    } else if ps[0].kind != Text {
      k := 1;
    } else {
      k := FirstRead(ps[1..]);
      k := k + 1;
    }
  }

  lemma {:induction false} PollAllAfter(c: Child, k: nat)
    requires c.alive && k <= |c.pipe| && (forall i :: 0 <= i < k - 1 ==> c.pipe[i].kind == Text)
    requires k < |c.pipe| ==> k > 0 && c.pipe[k - 1].kind != Text
    ensures var d, last := PollAll(c), if k > 0 then c.pipe[k - 1].kind else Text;
            && d == c.(pipe := c.pipe[k..], taken := c.taken + k, alive := last != Kick, waiting := c.waiting && last != Done)
            && (ReadsDone(c) <==> last == Done)
    decreases |c.pipe|
  {
    if k == 0 {
      assert c.pipe[0..] == c.pipe;
    } else if c.pipe[0].kind != Text {
      LastRead(c, k);
    } else {
      assert c.pipe[1..][k - 1..] == c.pipe[k..];
      PollAllAfter(Polled(c), k - 1);
    }
  }

  lemma LastRead(c: Child, k: nat)
    requires c.alive && 0 < k <= |c.pipe| && c.pipe[0].kind != Text && (forall i :: 0 <= i < k - 1 ==> c.pipe[i].kind == Text)
    ensures k == 1 && PollAll(c) == Polled(c) && (ReadsDone(c) <==> c.pipe[0].kind == Done)
  {
  }

  /** What one poll does for a waiting child: it goes as far as the whole wait, completes the request
      exactly if the child lives and waits no longer, and does not leave it waiting when a batch
      ends in the pipe. */
  lemma {:induction false} PollAllWaiting(c: Child)
    requires c.waiting && c.alive
    ensures var d := PollUntilDone(c);
            && PollAll(c) == d
            && (ReadsDone(c) <==> d.alive && !d.waiting)
            && (d.alive && d.waiting ==> d.pipe == [] && (c.pipe != [] ==> !Ends(c.pipe)))
    decreases |c.pipe|
  {
    if c.pipe != [] {
      var d := Polled(c);
      if c.pipe[0].kind == Text {
        if Ends(c.pipe) { TailEnds(c.pipe); }
        PollAllWaiting(d);
        assert Ends(c.pipe) ==> d.pipe != [];
      } else {
        assert PollUntilDone(d) == d;
      }
    }
  }

  /** A client process; `child` is its part of the network. */
  class Client {
    var child: Child
    var requestComplete: bool

    constructor (c: Child)
      ensures child == c && !requestComplete
    {
      child, requestComplete := c, false;
    }

    /** poll_requests: reads until the pipe is empty, a request is done or the client is kicked; `read`
        is the number of packets read. */
    method PollRequests() returns (gotCmd: bool, ghost read: nat)
      requires child.alive
      modifies this
      ensures child == PollAll(old(child)) && gotCmd == (old(child).pipe != [])
      ensures requestComplete == (old(requestComplete) || ReadsDone(old(child)))
      ensures read <= |old(child).pipe| && child.pipe == old(child).pipe[read..]
      ensures forall i :: 0 <= i < read - 1 ==> old(child).pipe[i].kind == Text
      ensures read < |old(child).pipe| ==> read > 0 && old(child).pipe[read - 1].kind != Text
      ensures child.alive <==> read == 0 || old(child).pipe[read - 1].kind != Kick
      ensures requestComplete <==> old(requestComplete) || (read > 0 && old(child).pipe[read - 1].kind == Done)
    {
      read := PollAllIs(child);
      gotCmd := false;
      while child.alive && child.pipe != []
        invariant PollAll(child) == PollAll(old(child)) && ReadsDone(child) == ReadsDone(old(child))
        invariant requestComplete == old(requestComplete)
        invariant if gotCmd then old(child).pipe != [] else child == old(child)
        decreases |child.pipe|
      {
        var kind := child.pipe[0].kind;
        child, gotCmd := Polled(child), true;
        if kind == Done {
          requestComplete := true;
          return;
        }
      }
    }

    /** The first half of send_master: the request is on its way. */
    method Post(x: Pid, req: Req)
      requires child.alive && !child.waiting
      modifies this
      ensures child == Step(map[x := old(child)], Send(x, req))[x] && !requestComplete
    {
      requestComplete := false;
      child := child.(waiting := true, inbox := child.inbox + [req], sent := child.sent + 1,
                      clean := Coming(child) == [] && child.inbox == []);
    }

    /** The second half: polls until the request is complete.  `arrivals` are the packets that come
        in before the second poll, the third and so on; what counts is only that a batch ends among
        them.  The outcome is the one of having had all the packets used from the start. */
    method Await(arrivals: seq<seq<Packet>>) returns (used: nat)
      requires child.alive && child.waiting && !requestComplete
      requires child.pipe + Flat(arrivals) != [] && Ends(child.pipe + Flat(arrivals))
      modifies this
      ensures used <= |arrivals| && child == PollUntilDone(Received(old(child), Flat(arrivals[..used])))
      ensures if child.alive then requestComplete && !child.waiting else !requestComplete
    {
      ghost var have := child;
      used := 0;
      PollAllWaiting(child);
      ReceivedNone(child, arrivals);
      var gotCmd, read := PollRequests();
      while !requestComplete && child.alive
        invariant used <= |arrivals| && have == Received(old(child), Flat(arrivals[..used]))
        invariant child == PollUntilDone(have) && (requestComplete <==> child.alive && !child.waiting)
        decreases |arrivals| - used
      {
        StillToCome(old(child), arrivals, used);
        PollMore(have, arrivals[used]);
        ReceivedNext(old(child), arrivals, used);
        have, child := Received(have, arrivals[used]), Received(child, arrivals[used]);
        PollAllWaiting(child);
        used := used + 1;
        gotCmd, read := PollRequests();
      }
    }
  }

  function Received(c: Child, ps: seq<Packet>): Child {
    c.(pipe := c.pipe + ps)
  }

  /** Polling goes on from where it stopped. */
  lemma {:induction false} PollMore(c: Child, ps: seq<Packet>)
    requires PollUntilDone(c).alive && PollUntilDone(c).waiting
    ensures PollUntilDone(c).pipe == []
    ensures PollUntilDone(Received(c, ps)) == PollUntilDone(Received(PollUntilDone(c), ps))
    decreases |c.pipe|
  {
    if c.alive && c.waiting && c.pipe != [] {
      PollMore(Polled(c), ps);
      assert (c.pipe + ps)[1..] == c.pipe[1..] + ps;
      assert Polled(Received(c, ps)) == Received(Polled(c), ps);
    }
  }

  /** A wait that is not over has not had all its packets. */
  lemma StillToCome(c: Child, arrivals: seq<seq<Packet>>, used: nat)
    requires c.alive && c.waiting && used <= |arrivals|
    requires c.pipe + Flat(arrivals) != [] && Ends(c.pipe + Flat(arrivals))
    requires var d := PollUntilDone(Received(c, Flat(arrivals[..used]))); d.alive && d.waiting
    ensures used < |arrivals|
  {
    if used == |arrivals| {
      assert arrivals[..used] == arrivals;
      PollAllWaiting(Received(c, Flat(arrivals)));
    }
  }

  lemma ReceivedNone(c: Child, arrivals: seq<seq<Packet>>)
    ensures Received(c, Flat(arrivals[..0])) == c
  {
    assert c.pipe + [] == c.pipe;
  }

  lemma ReceivedNext(c: Child, arrivals: seq<seq<Packet>>, used: nat)
    requires used < |arrivals|
    ensures Received(Received(c, Flat(arrivals[..used])), arrivals[used]) == Received(c, Flat(arrivals[..used + 1]))
  {
    FlatJoin(arrivals[..used], [arrivals[used]]);
    FlatOne(arrivals[used]);
    assert arrivals[..used] + [arrivals[used]] == arrivals[..used + 1];
    assert c.pipe + Flat(arrivals[..used]) + arrivals[used] == c.pipe + (Flat(arrivals[..used]) + arrivals[used]);
  }

  /** Whether a REQ_ALLDONE comes before a kick. */
  predicate ReadsDone(c: Child)
    decreases |c.pipe|
  {
    c.alive && c.pipe != [] && (c.pipe[0].kind == Done || ReadsDone(Polled(c)))
  }
}
