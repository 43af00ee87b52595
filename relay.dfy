/**
 * The two actors put together. The server's mailbox hands it the requests
 * of all sessions one at a time; a trace is one such order. What a session
 * sends (module Session) is fed to what the server does with it (modules
 * Registry and Server).
 */
module Relay {
  import opened Messages
  import opened Registry
  import opened Session
  import Server

  /** The registry change the server makes when it handles `request`. */
  function Apply(r: Channels, request: Request): (r': Channels)
  {
    match request
    case Connect(id, channel, addr) => Join(r, id, channel, addr)
    case Disconnect(id, channel) => Leave(r, id, channel)
    case ClientMessage(_, _, _) => r
  }

  /** The registry after the server has handled `trace`, first to last. */
  function Run(r: Channels, trace: seq<Request>): (r': Channels)
    decreases |trace|
  {
    if trace == [] then r else Run(Apply(r, trace[0]), trace[1..])
  }

  /**
   * `sent` is the list of `do_send`s of the server handling `request` on
   * registry `r`: the welcome for a Connect, nothing for a Disconnect, and
   * for a ClientMessage one broadcast in the member iteration order `order`.
   */
  ghost predicate HubOutput(r: Channels, request: Request, order: seq<string>, sent: seq<Delivery>)
  {
    match request
    case Connect(_, _, addr) => sent == [Delivery(addr, Message(ServerJoined))]
    case Disconnect(_, _) => sent == []
    case ClientMessage(_, msg, channel) =>
      if channel in r then
        Enumerates(order, r[channel].Keys) && sent == Fanout(r[channel], order, msg)
      else
        sent == []
  }

  /** No request of `trace` connects `id` to `channel`. */
  predicate NoRejoin(trace: seq<Request>, id: string, channel: string)
  {
    forall i :: 0 <= i < |trace| ==>
      !(trace[i].Connect? && trace[i].id == id && trace[i].channel == channel)
  }

  /** No request of `trace` disconnects `id` from `channel`. */
  predicate NoLeave(trace: seq<Request>, id: string, channel: string)
  {
    forall i :: 0 <= i < |trace| ==>
      !(trace[i].Disconnect? && trace[i].id == id && trace[i].channel == channel)
  }

  /** Every Connect of `id` in `trace` names `channel`, as when `id` is a fresh session id. */
  predicate ConnectsOnlyTo(trace: seq<Request>, id: string, channel: string)
  {
    forall i :: 0 <= i < |trace| && trace[i].Connect? && trace[i].id == id ==> trace[i].channel == channel
  }

  /** `id` is a member of no channel other than `channel`. */
  ghost predicate InNoOtherChannel(r: Channels, id: string, channel: string)
  {
    forall c :: c in r && c != channel ==> id !in r[c]
  }

  /** No request of `trace` connects anybody to `channel`. */
  predicate NoJoinTo(trace: seq<Request>, channel: string)
  {
    forall i :: 0 <= i < |trace| ==> !(trace[i].Connect? && trace[i].channel == channel)
  }

  /**
   * The actix mailbox routing one request to the matching `Handler` of the
   * server. What it does is `Apply` on the registry and the output
   * `HubOutput` gives for the iteration order it used.
   */
  method Deliver(server: Server.ChatServer, request: Request) returns (ghost order: seq<string>)
    requires server.Valid()
    modifies server`channels, server`outbox
    ensures server.Valid()
    ensures server.channels == Apply(old(server.channels), request)
    ensures |old(server.outbox)| <= |server.outbox|
    ensures server.outbox[..|old(server.outbox)|] == old(server.outbox)
    ensures HubOutput(old(server.channels), request, order, server.outbox[|old(server.outbox)|..])
  {
    order := [];
    match request {
      case Connect(id, channel, addr) =>
        server.Connect(id, channel, addr);
      case Disconnect(id, channel) =>
        server.Disconnect(id, channel);
      case ClientMessage(id, msg, channel) =>
        ghost var before := server.outbox;
        order := server.ClientMessage(id, msg, channel);
        if channel in server.channels {
          assert server.outbox[|before|..] == Fanout(server.channels[channel], order, msg);
        }
    }
  }

  // -----------------------------------------------------------------------
  // Runs of the registry

  lemma {:induction false} RunAppend(r: Channels, a: seq<Request>, b: seq<Request>)
    ensures Run(r, a + b) == Run(Run(r, a), b)
    decreases |a|
  {
    if a == [] {
      assert a + b == b;
    } else {
      assert (a + b)[1..] == a[1..] + b;
      RunAppend(Apply(r, a[0]), a[1..], b);
    }
  }

  /** Starting from `new`, every run keeps every stored channel non-empty. */
  lemma {:induction false} RunKeepsNoEmptyChannel(r: Channels, trace: seq<Request>)
    requires NoEmptyChannel(r)
    ensures NoEmptyChannel(Run(r, trace))
    decreases |trace|
  {
    if trace != [] {
      match trace[0] {
        case Connect(id, channel, addr) => JoinKeepsNoEmptyChannel(r, id, channel, addr);
        case Disconnect(id, channel) => LeaveKeepsNoEmptyChannel(r, id, channel);
        case ClientMessage(_, _, _) =>
      }
      RunKeepsNoEmptyChannel(Apply(r, trace[0]), trace[1..]);
    }
  }

  /** Broadcasts never change the registry. */
  lemma {:induction false} BroadcastsKeepRegistry(r: Channels, trace: seq<Request>, id: string, channel: string)
    requires OnlyBroadcasts(trace, id, channel)
    ensures Run(r, trace) == r
    decreases |trace|
  {
    if trace != [] {
      assert OnlyBroadcasts(trace[1..], id, channel) by {
        forall i | 0 <= i < |trace| - 1
          ensures trace[1..][i].ClientMessage? && trace[1..][i].id == id && trace[1..][i].channel == channel
        {
          assert trace[1..][i] == trace[i + 1];
        }
      }
      BroadcastsKeepRegistry(r, trace[1..], id, channel);
    }
  }

  /** Once `id` is not in `channel`, only a Connect of `id` to `channel` can put it back. */
  lemma {:induction false} StaysOut(r: Channels, trace: seq<Request>, id: string, channel: string)
    requires id !in Members(r, channel)
    requires NoRejoin(trace, id, channel)
    ensures id !in Members(Run(r, trace), channel)
    decreases |trace|
  {
    if trace != [] {
      assert NoRejoin(trace[1..], id, channel) by {
        forall i | 0 <= i < |trace| - 1
          ensures !(trace[1..][i].Connect? && trace[1..][i].id == id && trace[1..][i].channel == channel)
        {
          assert trace[1..][i] == trace[i + 1];
        }
      }
      assert !(trace[0].Connect? && trace[0].id == id && trace[0].channel == channel);
      StaysOut(Apply(r, trace[0]), trace[1..], id, channel);
    }
  }

  /** An absent channel stays absent while nobody connects to it. */
  lemma {:induction false} StaysAbsent(r: Channels, trace: seq<Request>, channel: string)
    requires channel !in r
    requires NoJoinTo(trace, channel)
    ensures channel !in Run(r, trace)
    decreases |trace|
  {
    if trace != [] {
      assert NoJoinTo(trace[1..], channel) by {
        forall i | 0 <= i < |trace| - 1
          ensures !(trace[1..][i].Connect? && trace[1..][i].channel == channel)
        {
          assert trace[1..][i] == trace[i + 1];
        }
      }
      assert !(trace[0].Connect? && trace[0].channel == channel);
      StaysAbsent(Apply(r, trace[0]), trace[1..], channel);
    }
  }

  /**
   * One channel per id: when every Connect of `id` names the same channel,
   * `id` never becomes a member of any other channel.
   */
  lemma {:induction false} OneChannelPerId(r: Channels, trace: seq<Request>, id: string, channel: string)
    requires InNoOtherChannel(r, id, channel)
    requires ConnectsOnlyTo(trace, id, channel)
    ensures InNoOtherChannel(Run(r, trace), id, channel)
    decreases |trace|
  {
    if trace != [] {
      assert ConnectsOnlyTo(trace[1..], id, channel) by {
        forall i | 0 <= i < |trace| - 1 && trace[1..][i].Connect? && trace[1..][i].id == id
          ensures trace[1..][i].channel == channel
        {
          assert trace[1..][i] == trace[i + 1];
        }
      }
      var next := Apply(r, trace[0]);
      forall c | c in next && c != channel ensures id !in next[c] {
        match trace[0] {
          case Connect(id', channel', addr) =>
            if c == channel' {
              assert id' != id;
              assert Members(next, c) == Members(r, c) + {id'};
              assert id !in Members(r, c);
            }
          case Disconnect(id', channel') =>
            assert c in r;
            if c == channel' {
              assert Members(next, c) == Members(r, c) - {id'};
            }
          case ClientMessage(_, _, _) =>
        }
      }
      OneChannelPerId(next, trace[1..], id, channel);
    }
  }

  /**
   * No lost membership: a member stays in its channel, with the same handle,
   * until a Disconnect or a new Connect of its id to that channel.
   */
  lemma {:induction false} StaysIn(r: Channels, trace: seq<Request>, id: string, channel: string)
    requires id in Members(r, channel)
    requires NoLeave(trace, id, channel)
    requires NoRejoin(trace, id, channel)
    ensures id in Members(Run(r, trace), channel)
    ensures Run(r, trace)[channel][id] == r[channel][id]
    decreases |trace|
  {
    if trace != [] {
      assert NoLeave(trace[1..], id, channel) && NoRejoin(trace[1..], id, channel) by {
        forall i | 0 <= i < |trace| - 1
          ensures !(trace[1..][i].Disconnect? && trace[1..][i].id == id && trace[1..][i].channel == channel)
          ensures !(trace[1..][i].Connect? && trace[1..][i].id == id && trace[1..][i].channel == channel)
        {
          assert trace[1..][i] == trace[i + 1];
        }
      }
      assert !(trace[0].Disconnect? && trace[0].id == id && trace[0].channel == channel);
      assert !(trace[0].Connect? && trace[0].id == id && trace[0].channel == channel);
      var next := Apply(r, trace[0]);
      assert id in Members(next, channel) && next[channel][id] == r[channel][id];
      StaysIn(next, trace[1..], id, channel);
    }
  }

  // -----------------------------------------------------------------------
  // Sessions and the registry

  /**
   * A session that has stopped has no membership left in its channel,
   * whatever other sessions did before its Disconnect, provided no Connect
   * of its id to its channel came after.
   */
  lemma StoppedSessionIsNotAMember(r: Channels, before: seq<Request>, after: seq<Request>, id: string, channel: string)
    requires NoRejoin(after, id, channel)
    ensures id !in Members(Run(r, before + [Disconnect(id, channel)] + after), channel)
  {
    RunAppend(r, before + [Disconnect(id, channel)], after);
    RunAppend(r, before, [Disconnect(id, channel)]);
    StaysOut(Run(r, before + [Disconnect(id, channel)]), after, id, channel);
  }

  /**
   * When the stopping session was the last member of its channel, the channel
   * is gone, and stays gone while nobody connects to it.
   */
  lemma LastMemberRemovesChannel(r: Channels, before: seq<Request>, after: seq<Request>, id: string, channel: string)
    requires Members(Run(r, before), channel) <= {id}
    requires NoJoinTo(after, channel)
    ensures channel !in Run(r, before + [Disconnect(id, channel)] + after)
  {
    RunAppend(r, before + [Disconnect(id, channel)], after);
    RunAppend(r, before, [Disconnect(id, channel)]);
    StaysAbsent(Run(r, before + [Disconnect(id, channel)]), after, channel);
  }

  /**
   * A session whose requests reach the server without others in between
   * leaves the registry as it found it (it was not a member before).
   */
  lemma LifetimeRestoresRegistry(r: Channels, requests: seq<Request>, id: string, channel: string, addr: Handle)
    requires NoEmptyChannel(r)
    requires id !in Members(r, channel)
    requires Lifetime(requests, id, channel, addr)
    ensures Run(r, requests) == r
  {
    var n := |requests|;
    var middle := requests[1..n - 1];
    assert requests == [requests[0]] + middle + [requests[n - 1]];
    RunAppend(r, [requests[0]] + middle, [requests[n - 1]]);
    RunAppend(r, [requests[0]], middle);
    var joined := Join(r, id, channel, addr);
    assert Run(r, [requests[0]]) == joined;
    BroadcastsKeepRegistry(joined, middle, id, channel);
    LeaveUndoesJoin(r, id, channel, addr);
  }

  /**
   * A text frame from a member of a channel reaches every member of that
   * channel, the sender included, and nobody else, verbatim.
   */
  lemma TextReachesWholeChannel(r: Channels, id: string, channel: string, text: string, order: seq<string>, sent: seq<Delivery>)
    requires id in Members(r, channel)
    requires HubOutput(r, ClientMessage(id, text, channel), order, sent)
    ensures Requested(OnStreamEvent(id, channel, Received(Text(text)))) == [ClientMessage(id, text, channel)]
    ensures forall m :: m in r[channel] ==> Delivery(r[channel][m], Message(text)) in sent
    ensures Delivery(r[channel][id], Message(text)) in sent
    ensures forall d :: d in sent ==>
              d.msg == Message(text) && exists m :: m in r[channel] && r[channel][m] == d.to
  {
    forall m | m in r[channel] ensures Delivery(r[channel][m], Message(text)) in sent {
      FanoutReachesEveryMember(r[channel], order, text, m);
    }
    forall d | d in sent ensures d.msg == Message(text) && exists m :: m in r[channel] && r[channel][m] == d.to {
      FanoutOnlyToMembers(r[channel], order, text, d);
    }
  }

  // -----------------------------------------------------------------------
  // Scenarios

  /** Two members of "general"; one says "hi"; both receive it. */
  lemma BothMembersHearHi(a: Handle, b: Handle, order: seq<string>, sent: seq<Delivery>)
    requires HubOutput(Run(map[], [Connect("A", "general", a), Connect("B", "general", b)]),
                       ClientMessage("A", "hi", "general"), order, sent)
    ensures Delivery(a, Message("hi")) in sent
    ensures Delivery(b, Message("hi")) in sent
  {
    var trace := [Connect("A", "general", a), Connect("B", "general", b)];
    var r := Run(map[], trace);
    var first := Join(map[], "A", "general", a);
    assert trace[1..] == [Connect("B", "general", b)] && trace[1..][1..] == [];
    assert r == Run(first, trace[1..]);
    assert r == Join(first, "B", "general", b);
    TextReachesWholeChannel(r, "A", "general", "hi", order, sent);
    assert "B" in r["general"];
  }

  /** Joining "x" and leaving again leaves no entry for "x". */
  lemma JoinThenLeaveLeavesNothing(h: Handle)
    ensures Run(map[], [Connect("A", "x", h), Disconnect("A", "x")]) == map[]
  {
    var r := Run(map[], [Connect("A", "x", h), Disconnect("A", "x")]);
    assert Run(map[], [Connect("A", "x", h)]) == map["x" := map["A" := h]] by {
      assert [Connect("A", "x", h)][1..] == [];
    }
    assert [Connect("A", "x", h), Disconnect("A", "x")][1..] == [Disconnect("A", "x")];
    assert [Disconnect("A", "x")][1..] == [];
    assert map["A" := h] - {"A"} == map[];
  }
}
