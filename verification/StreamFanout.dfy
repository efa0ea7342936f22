/** One Redis subscriber per key fanned out to any number of WebSocket clients:
    subscribe, then snapshot, then drain. */
module StreamFanout {
  import opened Sequences
  import opened Wrappers

  /** What routing reads of a serialized frame; `lifecycle` is one of the three
      iteration envelope types. */
  datatype Frame = Frame(id: string, iteration: Option<string>, lifecycle: bool)

  datatype ClientState = ClientState(queue: seq<Frame>, subscriptions: set<string>)

  /** A text frame received from a client. `id` is None when it is no string. */
  datatype Control = NotAnObject | Control(kind: string, scope: string, id: Option<string>)

  predicate ToAll(f: Frame) {
    f.iteration.None? || f.lifecycle
  }

  predicate Allowed(f: Frame, subscriptions: set<string>) {
    ToAll(f) || f.iteration.value in subscriptions
  }

  function Deliver(c: ClientState, f: Frame): ClientState {
    if Allowed(f, c.subscriptions) then c.(queue := c.queue + [f]) else c
  }

  predicate Obeyed(m: Control) {
    m.Control? && m.kind in {"subscribe", "unsubscribe"} && m.scope == "iteration" && m.id.Some? && m.id.value != ""
  }

  function Steer(c: ClientState, m: Control): ClientState {
    if !Obeyed(m) then c
    else if m.kind == "subscribe" then c.(subscriptions := c.subscriptions + {m.id.value})
    else c.(subscriptions := c.subscriptions - {m.id.value})
  }

  /** A control message that asks for the frames of iteration i. */
  predicate AsksFor(m: Control, i: string) {
    m.Control? && m.kind == "subscribe" && m.scope == "iteration" && m.id == Some(i) && i != ""
  }

  /** One that asks for them no longer. */
  predicate AsksOut(m: Control, i: string) {
    m.Control? && m.kind == "unsubscribe" && m.scope == "iteration" && m.id == Some(i) && i != ""
  }

  function Taken(c: ClientState): ClientState
    requires c.queue != []
  {
    c.(queue := c.queue[1..])
  }

  // ---------------------------------------------------------------- the manager

  class WebSocketManager<Key(==), Socket(==)> {
    var clients: map<Key, map<Socket, ClientState>>
    var pumps: map<Key, bool>

    /** A key has a registered pump exactly when it has a client. */
    ghost predicate Valid()
      reads this
    {
      && clients.Keys == pumps.Keys
      && forall k :: k in clients ==> clients[k] != map[]
    }

    constructor ()
      ensures Valid() && clients == map[]
    {
      clients, pumps := map[], map[];
    }

    /** The locked part of a connect; `true` when it started a pump. */
    method Register(key: Key, socket: Socket) returns (started: bool)
      requires Valid()
      modifies this
      ensures Valid() && started == (key !in old(clients))
      ensures clients == old(clients)[key := (if key in old(clients) then old(clients)[key] else map[])[socket := ClientState([], {})]]
      ensures pumps == if started then old(pumps)[key := false] else old(pumps)
    {
      var ours := if key in clients then clients[key] else map[];
      ours := ours[socket := ClientState([], {})];
      assert socket in ours;
      clients := clients[key := ours];
      started := key !in pumps;
      if started {
        pumps := pumps[key := false];
      }
    }

    /** The SUBSCRIBE of a key's pump is acknowledged. */
    method Acknowledge(key: Key)
      requires Valid() && key in pumps
      modifies this`pumps
      ensures Valid() && pumps == old(pumps)[key := true]
    {
      pumps := pumps[key := true];
    }

    /** The last client of a key takes its pump with it; nothing else changes. */
    method Remove(key: Key, socket: Socket)
      requires Valid()
      modifies this
      ensures Valid()
      ensures forall k :: k in old(clients) && k != key ==> k in clients && clients[k] == old(clients)[k] && pumps[k] == old(pumps)[k]
      ensures clients.Keys <= old(clients).Keys
      ensures key in clients <==> key in old(clients) && old(clients)[key] - {socket} != map[]
      ensures key in clients ==> clients[key] == old(clients)[key] - {socket} && pumps[key] == old(pumps)[key]
    {
      if key !in clients {
        return;
      }
      var ours := clients[key] - {socket};
      if ours != map[] {
        clients := clients[key := ours];
        return;
      }
      clients, pumps := clients - {key}, pumps - {key};
    }

    /** One frame to every client of the key, through each one's filter. */
    method Fanout(key: Key, frame: Frame)
      requires Valid()
      modifies this`clients
      ensures Valid() && clients.Keys == old(clients).Keys
      ensures forall k :: k in clients && k != key ==> clients[k] == old(clients)[k]
      ensures key in clients ==> clients[key] == map s | s in old(clients)[key] :: Deliver(old(clients)[key][s], frame)
      ensures key in clients ==>
                forall s :: s in clients[key] ==>
                  var was, now := old(clients)[key][s], clients[key][s];
                  && now.subscriptions == was.subscriptions
                  && now.queue == was.queue + if frame.iteration.None? || frame.lifecycle || frame.iteration.value in was.subscriptions
                                              then [frame] else []
    {
      if key !in clients {
        return;
      }
      var toAll := frame.iteration.None? || frame.lifecycle;
      var before := clients[key];
      var ours, waiting := before, before.Keys;
      while waiting != {}
        invariant waiting <= before.Keys && ours.Keys == before.Keys
        invariant forall s :: s in before ==> ours[s] == if s in waiting then before[s] else Deliver(before[s], frame)
        decreases |waiting|
      {
        var s :| s in waiting;
        waiting := waiting - {s};
        var state := ours[s];
        if !toAll && frame.iteration.value !in state.subscriptions {
          continue;
        }
        ours := ours[s := state.(queue := state.queue + [frame])];
      }
      var someone :| someone in before;
      assert someone in ours;
      clients := clients[key := ours];
    }

    method HandleControl(key: Key, socket: Socket, m: Control)
      requires Valid() && key in clients && socket in clients[key]
      modifies this`clients
      ensures Valid()
      ensures clients == old(clients)[key := old(clients)[key][socket := Steer(old(clients)[key][socket], m)]]
      ensures clients[key][socket].queue == old(clients)[key][socket].queue
      ensures forall i :: i in clients[key][socket].subscriptions <==>
                AsksFor(m, i) || (i in old(clients)[key][socket].subscriptions && !AsksOut(m, i))
    {
      var state := clients[key][socket];
      forall i { SteerReads(state, m, i); }
      if m.NotAnObject? || (m.kind != "subscribe" && m.kind != "unsubscribe") || m.scope != "iteration"
         || m.id.None? || m.id.value == "" {
        assert clients[key][socket := state] == clients[key];
        assert clients[key := clients[key]] == clients;
        return;
      }
      if m.kind == "subscribe" {
        state := state.(subscriptions := state.subscriptions + {m.id.value});
      } else {
        state := state.(subscriptions := state.subscriptions - {m.id.value});
      }
      assert socket in clients[key][socket := state];
      clients := clients[key := clients[key][socket := state]];
    }

    /** The send loop takes the oldest queued frame of one client. */
    method TakeNext(key: Key, socket: Socket) returns (frame: Frame)
      requires Valid() && key in clients && socket in clients[key] && clients[key][socket].queue != []
      modifies this`clients
      ensures Valid()
      ensures frame == old(clients)[key][socket].queue[0]
      ensures clients == old(clients)[key := old(clients)[key][socket := Taken(old(clients)[key][socket])]]
    {
      var state := clients[key][socket];
      frame := state.queue[0];
      state := state.(queue := state.queue[1..]);
      assert socket in clients[key][socket := state];
      clients := clients[key := clients[key][socket := state]];
    }
  }

  // ---------------------------------------------------------------- one key over time

  /** `Listening(next)`: the pump has fanned out the channel up to `next`. */
  datatype Pump = NoPump | Connecting | Listening(next: nat)

  /** A client seen from outside. It hears the channel from position `from`,
      and `heardAs` holds its subscriptions at the fan-out of each frame since.
      Its snapshot was read when `seen` frames had been published, with the turn
      in flight or not; `shownAs` holds its subscriptions as each snapshot frame
      came up. `wire` is what its socket was sent, `forwarded` the live part. */
  datatype Client = Client(state: ClientState, from: nat, heardAs: seq<set<string>>,
                           snapshot: Option<seq<Frame>>, whileInFlight: bool, seen: nat, shownAs: seq<set<string>>,
                           wire: seq<Frame>, forwarded: seq<Frame>)

  /** The channel of one key and one streaming turn on it. `places[k]` is where
      chunk k stands in `published`; a chunk is cached before it is published. */
  datatype Hub = Hub(chunks: seq<Frame>, inFlight: bool, places: seq<nat>, published: seq<Frame>,
                     pump: Pump, clients: map<nat, Client>)

  datatype Step =
    | CacheChunk(frame: Frame)
    | PublishChunk
    | PublishOther(frame: Frame)
    | FinishTurn
    | Join(client: nat)
    | Subscribed
    | PumpOne
    | ReadSnapshot(client: nat, ok: bool)
    | SendOne(client: nat)
    | Receive(client: nat, message: Control)
    | Leave(client: nat)

  function NewClient(from: nat): Client {
    Client(ClientState([], {}), from, [], None, false, 0, [], [], [])
  }

  function Hear(c: Client, f: Frame): Client {
    c.(state := Deliver(c.state, f), heardAs := c.heardAs + [c.state.subscriptions])
  }

  function Send(c: Client): Client {
    if c.snapshot.None? then c
    else if |c.shownAs| < |c.snapshot.value| then
      var f := c.snapshot.value[|c.shownAs|];
      c.(shownAs := c.shownAs + [c.state.subscriptions],
         wire := if Allowed(f, c.state.subscriptions) then c.wire + [f] else c.wire)
    else if c.state.queue == [] then c
    else
      var f := c.state.queue[0];
      c.(state := Taken(c.state), wire := c.wire + [f], forwarded := c.forwarded + [f])
  }

  /** A step whose moment has not come changes nothing. */
  function Apply(h: Hub, step: Step): Hub {
    match step
    case CacheChunk(f) =>
      if h.inFlight && |h.places| == |h.chunks| then h.(chunks := h.chunks + [f]) else h
    case PublishChunk =>
      if |h.places| < |h.chunks|
      then h.(published := h.published + [h.chunks[|h.places|]], places := h.places + [|h.published|]) else h
    case PublishOther(f) => h.(published := h.published + [f])
    case FinishTurn => if |h.places| == |h.chunks| then h.(inFlight := false) else h
    case Join(c) =>
      if c in h.clients then h
      else h.(clients := h.clients[c := NewClient(if h.pump.Listening? then h.pump.next else 0)],
              pump := if h.pump.NoPump? then Connecting else h.pump)
    case Subscribed =>
      if h.pump.Connecting?
      then h.(pump := Listening(|h.published|), clients := map c | c in h.clients :: h.clients[c].(from := |h.published|))
      else h
    case PumpOne =>
      if h.pump.Listening? && h.pump.next < |h.published| then
        var f := h.published[h.pump.next];
        h.(pump := Listening(h.pump.next + 1),
           clients := map c | c in h.clients :: Hear(h.clients[c], f))
      else h
    case ReadSnapshot(c, ok) =>
      if c in h.clients && h.clients[c].snapshot.None? && h.pump.Listening? then
        var live := ok && h.inFlight;
        h.(clients := h.clients[c := h.clients[c].(snapshot := Some(if live then h.chunks else []),
                                                   whileInFlight := live, seen := |h.published|)])
      else h
    case SendOne(c) => if c in h.clients then h.(clients := h.clients[c := Send(h.clients[c])]) else h
    case Receive(c, m) =>
      if c in h.clients && h.clients[c].snapshot.Some?
      then h.(clients := h.clients[c := h.clients[c].(state := Steer(h.clients[c].state, m))]) else h
    case Leave(c) =>
      var rest := h.clients - {c};
      h.(clients := rest, pump := if rest == map[] then NoPump else h.pump)
  }

  const EMPTY := Hub([], true, [], [], NoPump, map[])

  function Run(steps: seq<Step>): Hub {
    if steps == [] then EMPTY else Apply(Run(steps[..|steps| - 1]), steps[|steps| - 1])
  }

  // ---------------------------------------------------------------- frames a filter lets through

  /** The frames allowed under the subscriptions of their moment. */
  function Passed(frames: seq<Frame>, subs: seq<set<string>>): seq<Frame>
    requires |frames| == |subs|
  {
    if frames == [] then []
    else
      var n := |frames| - 1;
      var rest := Passed(frames[..n], subs[..n]);
      if Allowed(frames[n], subs[n]) then rest + [frames[n]] else rest
  }

  /** Their positions. */
  function Heard(frames: seq<Frame>, subs: seq<set<string>>): seq<nat>
    requires |frames| == |subs|
  {
    if frames == [] then []
    else
      var n := |frames| - 1;
      var rest := Heard(frames[..n], subs[..n]);
      if Allowed(frames[n], subs[n]) then rest + [n] else rest
  }

  lemma PassedSnoc(frames: seq<Frame>, subs: seq<set<string>>, f: Frame, sub: set<string>)
    requires |frames| == |subs|
    ensures Passed(frames + [f], subs + [sub]) == Passed(frames, subs) + (if Allowed(f, sub) then [f] else [])
  {
    assert (frames + [f])[..|frames|] == frames && (subs + [sub])[..|subs|] == subs;
  }

  /** `picked` is `frames` at strictly rising positions: exactly those whose
      frame was allowed at its moment. */
  ghost predicate FilteredInOrder(picked: seq<Frame>, frames: seq<Frame>, subs: seq<set<string>>, heard: seq<nat>)
    requires |frames| == |subs|
  {
    && |picked| == |heard|
    && (forall k :: 0 <= k < |heard| ==> heard[k] < |frames| && picked[k] == frames[heard[k]])
    && (forall j, k :: 0 <= j < k < |heard| ==> heard[j] < heard[k])
    && (forall p :: 0 <= p < |frames| ==> (p in heard <==> Allowed(frames[p], subs[p])))
  }

  lemma FilteredSnoc(picked: seq<Frame>, frames: seq<Frame>, subs: seq<set<string>>, heard: seq<nat>, f: Frame, sub: set<string>)
    requires |frames| == |subs| && FilteredInOrder(picked, frames, subs, heard)
    ensures if Allowed(f, sub) then FilteredInOrder(picked + [f], frames + [f], subs + [sub], heard + [|frames|])
            else FilteredInOrder(picked, frames + [f], subs + [sub], heard)
  {
    hide Allowed;
    assert forall p :: 0 <= p < |frames| ==> (frames + [f])[p] == frames[p] && (subs + [sub])[p] == subs[p];
    assert |frames| !in heard;
  }

  lemma {:induction false} PassedIsFilteredInOrder(frames: seq<Frame>, subs: seq<set<string>>)
    requires |frames| == |subs|
    ensures FilteredInOrder(Passed(frames, subs), frames, subs, Heard(frames, subs))
  {
    hide Allowed;
    if frames != [] {
      hide FilteredInOrder;
      var n := |frames| - 1;
      PassedIsFilteredInOrder(frames[..n], subs[..n]);
      FilteredSnoc(Passed(frames[..n], subs[..n]), frames[..n], subs[..n], Heard(frames[..n], subs[..n]), frames[n], subs[n]);
      assert frames == frames[..n] + [frames[n]] && subs == subs[..n] + [subs[n]];
    }
  }

  lemma PassedMember(frames: seq<Frame>, subs: seq<set<string>>, f: Frame)
    requires |frames| == |subs|
    ensures f in Passed(frames, subs) <==> exists p :: 0 <= p < |frames| && frames[p] == f && Allowed(f, subs[p])
  {
    hide Allowed, Passed, Heard;
    PassedIsFilteredInOrder(frames, subs);
    var picked, heard := Passed(frames, subs), Heard(frames, subs);
    if f in picked {
      var k :| 0 <= k < |picked| && picked[k] == f;
      assert heard[k] in heard;
    }
    if p :| 0 <= p < |frames| && frames[p] == f && Allowed(f, subs[p]) {
      assert p in heard;
      var k :| 0 <= k < |heard| && heard[k] == p;
      assert picked[k] == f;
    }
  }

  // ---------------------------------------------------------------- what every step keeps

  /** What a client was sent live plus what waits for it is exactly the channel
      since it joined, through its filter of each moment; its wire holds the
      snapshot, through the filter, and then the live part; and every chunk a
      snapshot read in flight missed is published after it. */
  ghost predicate ClientSound(h: Hub, c: Client) {
    && (h.pump.Connecting? ==> c.snapshot.None? && c.state.queue == [] && c.heardAs == [])
    && (h.pump.Listening? ==>
          && c.from <= h.pump.next <= |h.published| && |c.heardAs| == h.pump.next - c.from
          && c.forwarded + c.state.queue == Passed(h.published[c.from..h.pump.next], c.heardAs))
    && (c.snapshot.None? ==> c.wire == [] && c.forwarded == [] && c.shownAs == [])
    && (c.snapshot.Some? ==> h.pump.Listening? && c.from <= c.seen <= |h.published| && SnapshotSound(h, c))
  }

  ghost predicate SnapshotSound(h: Hub, c: Client)
    requires c.snapshot.Some?
  {
    && |c.shownAs| <= |c.snapshot.value|
    && (|c.shownAs| < |c.snapshot.value| ==> c.forwarded == [])
    && c.wire == Passed(c.snapshot.value[..|c.shownAs|], c.shownAs) + c.forwarded
    && c.snapshot.value <= h.chunks
    && (c.whileInFlight ==> forall k :: |c.snapshot.value| <= k < |h.places| ==> h.places[k] >= c.seen)
  }

  ghost predicate PlacesSound(h: Hub) {
    && |h.places| <= |h.chunks|
    && forall k :: 0 <= k < |h.places| ==> h.places[k] < |h.published| && h.published[h.places[k]] == h.chunks[k]
  }

  ghost predicate Inv(h: Hub) {
    && PlacesSound(h)
    && (h.pump.NoPump? <==> h.clients == map[])
    && (h.pump.Listening? ==> h.pump.next <= |h.published|)
    && forall c :: c in h.clients ==> ClientSound(h, h.clients[c])
  }

  lemma PumpKeeps(h: Hub, c: Client)
    requires h.pump.Listening? && h.pump.next < |h.published| && ClientSound(h, c)
    ensures ClientSound(h.(pump := Listening(h.pump.next + 1)), Hear(c, h.published[h.pump.next]))
  {
    hide Passed, SnapshotSound, Allowed;
    var n := h.pump.next;
    var f := h.published[n];
    assert h.published[c.from..n + 1] == h.published[c.from..n] + [f];
    PassedSnoc(h.published[c.from..n], c.heardAs, f, c.state.subscriptions);
    assert c.forwarded + (c.state.queue + [f]) == (c.forwarded + c.state.queue) + [f];
    if c.snapshot.Some? { SameSnapshot(h, c, h.(pump := Listening(n + 1)), Hear(c, f)); }
  }

  /** Nothing about a snapshot depends on the queue, the pump or what is heard. */
  lemma SameSnapshot(h: Hub, c: Client, g: Hub, d: Client)
    requires c.snapshot.Some? && SnapshotSound(h, c) && g.chunks == h.chunks && g.places == h.places
    requires d == c.(state := d.state, heardAs := d.heardAs)
    ensures SnapshotSound(g, d)
  {
    hide Passed;
  }

  lemma SendKeeps(h: Hub, c: Client)
    requires ClientSound(h, c)
    ensures ClientSound(h, Send(c))
  {
    hide Passed, Allowed;
    if c.snapshot.Some? && |c.shownAs| < |c.snapshot.value| {
      var n := |c.shownAs|;
      var f := c.snapshot.value[n];
      PassedSnoc(c.snapshot.value[..n], c.shownAs, f, c.state.subscriptions);
      assert c.snapshot.value[..n + 1] == c.snapshot.value[..n] + [f];
    } else if c.snapshot.Some? && c.state.queue != [] {
      var f := c.state.queue[0];
      assert (c.forwarded + [f]) + c.state.queue[1..] == c.forwarded + c.state.queue;
    }
  }

  /** More published frames or cached chunks take nothing from a client. */
  lemma GrowKeeps(h: Hub, g: Hub, c: Client)
    requires ClientSound(h, c) && PlacesSound(h)
    requires h.chunks <= g.chunks && h.published <= g.published && h.places <= g.places && g.pump == h.pump
    requires forall k :: |h.places| <= k < |g.places| ==> g.places[k] >= |h.published|
    ensures ClientSound(g, c)
  {
    hide Passed;
    if h.pump.Listening? {
      assert g.published[c.from..h.pump.next] == h.published[c.from..h.pump.next];
    }
    if c.snapshot.Some? {
      forall k | |c.snapshot.value| <= k < |g.places| && c.whileInFlight ensures g.places[k] >= c.seen {
        if k < |h.places| { assert g.places[k] == h.places[k]; }
      }
    }
  }

  lemma JoinKeeps(h: Hub, pump: Pump)
    requires h.pump == pump && !pump.NoPump? && (pump.Listening? ==> pump.next <= |h.published|)
    ensures ClientSound(h, NewClient(if pump.Listening? then pump.next else 0))
  {
  }

  lemma StepKeepsInv(h: Hub, step: Step)
    requires Inv(h)
    ensures Inv(Apply(h, step))
  {
    hide ClientSound, Send, Hear, Steer, NewClient;
    var g := Apply(h, step);
    match step
    case CacheChunk(_) => forall c | c in g.clients ensures ClientSound(g, g.clients[c]) { GrowKeeps(h, g, h.clients[c]); }
    case PublishChunk => forall c | c in g.clients ensures ClientSound(g, g.clients[c]) { GrowKeeps(h, g, h.clients[c]); }
    case PublishOther(_) => forall c | c in g.clients ensures ClientSound(g, g.clients[c]) { GrowKeeps(h, g, h.clients[c]); }
    case FinishTurn => forall c | c in g.clients ensures ClientSound(g, g.clients[c]) { GrowKeeps(h, g, h.clients[c]); }
    case Join(c) => JoinStep(h, c);
    case Subscribed => SubscribedStep(h);
    case PumpOne => PumpStep(h);
    case ReadSnapshot(c, ok) => SnapshotStep(h, c, ok);
    case SendOne(c) => if c in h.clients {
      SendKeeps(h, h.clients[c]);
      OthersKeep(h, c, Send(h.clients[c]));
    }
    case Receive(c, m) => if c in h.clients && h.clients[c].snapshot.Some? {
      SteerKeeps(h, h.clients[c], m);
      OthersKeep(h, c, h.clients[c].(state := Steer(h.clients[c].state, m)));
    }
    case Leave(c) => LeaveStep(h, c);
  }

  lemma OthersKeep(h: Hub, c: nat, client: Client)
    requires Inv(h) && c in h.clients && ClientSound(h, client)
    ensures Inv(h.(clients := h.clients[c := client]))
  {
    hide Passed, SnapshotSound;
    var g := h.(clients := h.clients[c := client]);
    assert c in g.clients;
    forall d | d in g.clients ensures ClientSound(g, g.clients[d]) {
      assert d in h.clients && ClientSound(h, h.clients[d]);
      if d == c { SameHub(h, g, client); } else { SameHub(h, g, h.clients[d]); }
    }
  }

  lemma SameHub(h: Hub, g: Hub, c: Client)
    requires ClientSound(h, c) && g == h.(clients := g.clients)
    ensures ClientSound(g, c)
  {
    hide Passed;
  }

  lemma SteerKeeps(h: Hub, c: Client, m: Control)
    requires ClientSound(h, c)
    ensures ClientSound(h, c.(state := Steer(c.state, m)))
  {
    hide Passed;
  }

  lemma JoinStep(h: Hub, c: nat)
    requires Inv(h)
    ensures Inv(Apply(h, Join(c)))
  {
    hide Passed, SnapshotSound, NewClient;
    if c !in h.clients {
      var g := Apply(h, Join(c));
      assert c in g.clients;
      JoinKeeps(g, g.pump);
      forall d | d in h.clients ensures ClientSound(g, h.clients[d]) {
        assert h.pump == g.pump;
        SameHub(h, g, h.clients[d]);
      }
    }
  }

  lemma SubscribedStep(h: Hub)
    requires Inv(h)
    ensures Inv(Apply(h, Subscribed))
  {
    hide SnapshotSound;
    if h.pump.Connecting? {
      var g := Apply(h, Subscribed);
      forall d | d in g.clients ensures ClientSound(g, g.clients[d]) {
        assert ClientSound(h, h.clients[d]);
      }
      assert g.clients.Keys == h.clients.Keys;
    }
  }

  lemma PumpStep(h: Hub)
    requires Inv(h)
    ensures Inv(Apply(h, PumpOne))
  {
    hide Hear, ClientSound;
    if h.pump.Listening? && h.pump.next < |h.published| {
      var g := Apply(h, PumpOne);
      forall d | d in g.clients ensures ClientSound(g, g.clients[d]) {
        PumpKeeps(h, h.clients[d]);
        SameHub(h.(pump := g.pump), g, g.clients[d]);
      }
      assert g.clients.Keys == h.clients.Keys;
    }
  }

  lemma SnapshotStep(h: Hub, c: nat, ok: bool)
    requires Inv(h)
    ensures Inv(Apply(h, ReadSnapshot(c, ok)))
  {
    if c in h.clients && h.clients[c].snapshot.None? && h.pump.Listening? {
      SnapshotKeeps(h, h.clients[c], ok);
      OthersKeep(h, c, Apply(h, ReadSnapshot(c, ok)).clients[c]);
    }
  }

  lemma SnapshotKeeps(h: Hub, c: Client, ok: bool)
    requires PlacesSound(h) && ClientSound(h, c) && c.snapshot.None? && h.pump.Listening?
    ensures var live := ok && h.inFlight;
            ClientSound(h, c.(snapshot := Some(if live then h.chunks else []), whileInFlight := live, seen := |h.published|))
  {
  }

  lemma LeaveStep(h: Hub, c: nat)
    requires Inv(h)
    ensures Inv(Apply(h, Leave(c)))
  {
    hide Passed, SnapshotSound;
    var g := Apply(h, Leave(c));
    forall d | d in g.clients ensures ClientSound(g, g.clients[d]) {
      assert g.pump == h.pump;
      SameHub(h, g, h.clients[d]);
    }
  }

  lemma {:induction false} RunsKeepInv(steps: seq<Step>)
    ensures Inv(Run(steps))
  {
    hide Apply;
    if steps != [] {
      RunsKeepInv(steps[..|steps| - 1]);
      StepKeepsInv(Run(steps[..|steps| - 1]), steps[|steps| - 1]);
    }
  }

  // ---------------------------------------------------------------- the contract

  /** Live frames of every kind reach each client once, in publish order, from
      the moment it joined: what it was forwarded and what waits for it is the
      channel at strictly rising positions, exactly those whose frame its
      subscriptions allowed at the fan-out. All of it comes after the snapshot,
      which goes through the same filter. */
  lemma LiveFramesInOrder(steps: seq<Step>, c: nat)
    requires c in Run(steps).clients && Run(steps).pump.Listening?
    ensures var h, client := Run(steps), Run(steps).clients[c];
            && client.from <= h.pump.next <= |h.published| && |client.heardAs| == h.pump.next - client.from
            && var frames := h.published[client.from..h.pump.next];
            && FilteredInOrder(client.forwarded + client.state.queue, frames, client.heardAs, Heard(frames, client.heardAs))
            && (client.snapshot.Some? ==>
                  && |client.shownAs| <= |client.snapshot.value|
                  && (client.forwarded != [] ==> |client.shownAs| == |client.snapshot.value|)
                  && client.wire == Passed(client.snapshot.value[..|client.shownAs|], client.shownAs) + client.forwarded)
  {
    hide Run, Passed, Heard, FilteredInOrder;
    RunsKeepInv(steps);
    var h, client := Run(steps), Run(steps).clients[c];
    assert ClientSound(h, client);
    PassedIsFilteredInOrder(h.published[client.from..h.pump.next], client.heardAs);
  }

  /** A chunk the pump has reached that its client can still get: read in the
      snapshot, or fanned out since it joined and let through. */
  predicate Gets(h: Hub, client: Client, k: nat)
    requires client.snapshot.Some? && k < |h.places| && k < |h.chunks|
    requires |client.heardAs| + client.from > h.places[k]
  {
    || k < |client.snapshot.value|
    || (h.places[k] >= client.from && Allowed(h.chunks[k], client.heardAs[h.places[k] - client.from]))
  }

  /** Exactly when a chunk is missed, whether or not the turn was in flight at
      the snapshot: when the snapshot is too short for it and it was fanned out
      before the client joined, or past its subscriptions. */
  lemma ChunkArrivesIff(steps: seq<Step>, c: nat, k: nat)
    requires c in Run(steps).clients && Run(steps).clients[c].snapshot.Some? && Run(steps).pump.Listening?
    requires k < |Run(steps).places| && Run(steps).places[k] < Run(steps).pump.next
    requires Distinct(Run(steps).published) && Distinct(Run(steps).chunks)
    ensures var h, client := Run(steps), Run(steps).clients[c];
            && k < |h.chunks| && |client.heardAs| + client.from == h.pump.next
            && (h.chunks[k] in client.snapshot.value + (client.forwarded + client.state.queue) <==> Gets(h, client, k))
            && (ToAll(h.chunks[k]) ==>
                  (Gets(h, client, k) <==> k < |client.snapshot.value| || h.places[k] >= client.from))
  {
    hide Run, Passed, Allowed;
    RunsKeepInv(steps);
    var h, client := Run(steps), Run(steps).clients[c];
    assert ClientSound(h, client);
    InSnapshotIff(h.chunks, client.snapshot.value, k);
    ForwardedIff(h, client, k);
    BroadcastIsAllowed(h.chunks[k]);
  }

  lemma BroadcastIsAllowed(f: Frame)
    ensures ToAll(f) ==> forall subs :: Allowed(f, subs)
  {
  }

  lemma InSnapshotIff(chunks: seq<Frame>, snapshot: seq<Frame>, k: nat)
    requires Distinct(chunks) && snapshot <= chunks && k < |chunks|
    ensures chunks[k] in snapshot <==> k < |snapshot|
  {
    if k < |snapshot| { assert snapshot[k] == chunks[k]; }
    if chunks[k] in snapshot {
      var j :| 0 <= j < |snapshot| && snapshot[j] == chunks[k];
      assert chunks[j] == snapshot[j];
    }
  }

  lemma ForwardedIff(h: Hub, client: Client, k: nat)
    requires PlacesSound(h) && ClientSound(h, client) && h.pump.Listening? && Distinct(h.published)
    requires k < |h.places| && h.places[k] < h.pump.next
    ensures |client.heardAs| + client.from == h.pump.next
    ensures h.chunks[k] in client.forwarded + client.state.queue <==>
            h.places[k] >= client.from && Allowed(h.chunks[k], client.heardAs[h.places[k] - client.from])
  {
    hide Passed, Allowed, SnapshotSound;
    var frames, f, at := h.published[client.from..h.pump.next], h.chunks[k], h.places[k] - client.from;
    PassedMember(frames, client.heardAs, f);
    if at >= 0 { assert frames[at] == f; }
    if p :| 0 <= p < |frames| && frames[p] == f && Allowed(f, client.heardAs[p]) {
      assert h.published[client.from + p] == h.published[h.places[k]];
    }
  }

  /** Zero loss: when the turn was in flight as the snapshot was read, every
      chunk the pump has reached, tagged with no iteration, is in the snapshot
      or among the frames forwarded and queued; once both are drained it has
      been sent. */
  lemma NoChunkIsLost(steps: seq<Step>, c: nat, k: nat)
    requires var h := Run(steps);
             && c in h.clients && h.clients[c].snapshot.Some? && h.clients[c].whileInFlight
             && h.pump.Listening? && k < |h.places| && h.places[k] < h.pump.next
             && k < |h.chunks| && ToAll(h.chunks[k])
    ensures var h, client := Run(steps), Run(steps).clients[c];
            && (h.chunks[k] in client.snapshot.value || h.chunks[k] in client.forwarded + client.state.queue)
            && (|client.shownAs| == |client.snapshot.value| && client.state.queue == [] ==> h.chunks[k] in client.wire)
  {
    hide Run, Passed, Allowed;
    RunsKeepInv(steps);
    var h, client := Run(steps), Run(steps).clients[c];
    assert ClientSound(h, client);
    var f := h.chunks[k];
    BroadcastIsAllowed(f);
    var frames := h.published[client.from..h.pump.next];
    if k < |client.snapshot.value| {
      assert client.snapshot.value[k] == f;
    } else {
      assert frames[h.places[k] - client.from] == f;
      PassedMember(frames, client.heardAs, f);
    }
    if |client.shownAs| == |client.snapshot.value| && client.state.queue == [] {
      assert client.snapshot.value[..|client.shownAs|] == client.snapshot.value;
      assert client.forwarded + client.state.queue == client.forwarded;
      PassedMember(client.snapshot.value, client.shownAs, f);
      if k < |client.snapshot.value| { assert client.snapshot.value[k] == f; }
    }
  }

  // ---------------------------------------------------------------- subscriptions over time

  /** A client that is connected and whose messages are read. */
  predicate Reading(h: Hub, c: nat) {
    c in h.clients && h.clients[c].snapshot.Some?
  }

  /** What the messages of client c say about iteration i: it asked for it while
      connected, and since then has neither asked out nor left. */
  ghost predicate Wants(steps: seq<Step>, c: nat, i: string) {
    exists n :: 0 <= n < |steps| && AskedAt(steps, c, i, n) && forall k :: n < k < |steps| ==> !GaveUp(steps[k], c, i)
  }

  ghost predicate AskedAt(steps: seq<Step>, c: nat, i: string, n: nat)
    requires n < |steps|
  {
    steps[n].Receive? && steps[n].client == c && AsksFor(steps[n].message, i) && Reading(Run(steps[..n]), c)
  }

  predicate GaveUp(step: Step, c: nat, i: string) {
    (step.Receive? && step.client == c && AsksOut(step.message, i)) || step == Leave(c)
  }

  lemma WantsSnoc(steps: seq<Step>, step: Step, c: nat, i: string)
    ensures Wants(steps + [step], c, i) <==>
            || (step.Receive? && step.client == c && AsksFor(step.message, i) && Reading(Run(steps), c))
            || (Wants(steps, c, i) && !GaveUp(step, c, i))
  {
    hide Run, AsksFor, Reading, GaveUp;
    var all, m := steps + [step], |steps|;
    assert all[m] == step && all[..m] == steps;
    forall n | 0 <= n < m ensures AskedAt(all, c, i, n) == AskedAt(steps, c, i, n) {
      assert all[..n] == steps[..n];
    }
    if step.Receive? && step.client == c && AsksFor(step.message, i) && Reading(Run(steps), c) {
      assert AskedAt(all, c, i, m);
    }
    if Wants(steps, c, i) && !GaveUp(step, c, i) {
      var n :| 0 <= n < m && AskedAt(steps, c, i, n) && forall k :: n < k < m ==> !GaveUp(steps[k], c, i);
      assert AskedAt(all, c, i, n);
      assert forall k :: n < k < m ==> all[k] == steps[k];
    }
    if Wants(all, c, i) {
      var n :| 0 <= n < |all| && AskedAt(all, c, i, n) && forall k :: n < k < |all| ==> !GaveUp(all[k], c, i);
      if n < m {
        assert !GaveUp(all[m], c, i) && AskedAt(steps, c, i, n);
        forall k | n < k < m ensures !GaveUp(steps[k], c, i) { assert all[k] == steps[k]; }
      }
    }
  }

  lemma OneStepSubscriptions(h: Hub, step: Step, c: nat, i: string)
    requires c in h.clients && i in h.clients[c].state.subscriptions ==> Reading(h, c)
    ensures var g := Apply(h, step);
            && (c in g.clients && i in g.clients[c].state.subscriptions ==> Reading(g, c))
            && (c in g.clients && i in g.clients[c].state.subscriptions <==>
                  || (step.Receive? && step.client == c && AsksFor(step.message, i) && Reading(h, c))
                  || (c in h.clients && i in h.clients[c].state.subscriptions && !GaveUp(step, c, i)))
  {
    hide Allowed;
    if step.Receive? && c in h.clients { SteerReads(h.clients[c].state, step.message, i); }
  }

  lemma SteerReads(c: ClientState, m: Control, i: string)
    ensures i in Steer(c, m).subscriptions <==> AsksFor(m, i) || (i in c.subscriptions && !AsksOut(m, i))
    ensures Steer(c, m).queue == c.queue
  {
  }

  /** A client's subscriptions are what its messages say, over every run. */
  lemma {:induction false} SubscriptionsAreWants(steps: seq<Step>, c: nat, i: string)
    ensures var h := Run(steps);
            && (Wants(steps, c, i) <==> c in h.clients && i in h.clients[c].state.subscriptions)
            && (Wants(steps, c, i) ==> Reading(h, c))
  {
    hide Apply, Inv;
    if steps == [] {
      assert !Wants(steps, c, i) && Run(steps) == EMPTY;
    } else {
      hide Wants, Reading, GaveUp, AsksFor;
      var init, last := steps[..|steps| - 1], steps[|steps| - 1];
      SubscriptionsAreWants(init, c, i);
      WantsSnoc(init, last, c, i);
      assert steps == init + [last];
      OneStepSubscriptions(Run(init), last, c, i);
    }
  }

  predicate Tagged(f: Frame) {
    f.iteration.Some? && !f.lifecycle
  }

  /** Over every run: when the pump reaches a frame, it is queued for a client,
      whole and last, if it is tagged with no iteration or is one of the
      lifecycle types or the client wants its iteration; otherwise the client
      does not get it. */
  lemma FanoutFollowsItsClients(steps: seq<Step>, c: nat)
    requires var h := Run(steps); c in h.clients && h.pump.Listening? && h.pump.next < |h.published|
    ensures var h, g := Run(steps), Run(steps + [PumpOne]);
            var f := h.published[h.pump.next];
            && c in g.clients && g.pump == Listening(h.pump.next + 1)
            && g.clients[c].state.queue ==
               h.clients[c].state.queue + if Tagged(f) && !Wants(steps, c, f.iteration.value) then [] else [f]
  {
    hide Wants;
    var h := Run(steps);
    var f := h.published[h.pump.next];
    assert (steps + [PumpOne])[..|steps|] == steps;
    if Tagged(f) { SubscriptionsAreWants(steps, c, f.iteration.value); }
  }

  /** Over every run: a client's socket is sent its snapshot frame by frame,
      leaving out the tagged frames it does not want as each comes up; after
      that its queue from the front; and nothing else. */
  lemma SendingFollowsTheClient(steps: seq<Step>, c: nat)
    requires Reading(Run(steps), c)
    ensures var client, g := Run(steps).clients[c], Run(steps + [SendOne(c)]);
            var n, queue, snapshot := |client.shownAs|, client.state.queue, client.snapshot.value;
            && c in g.clients && n <= |snapshot|
            && (n < |snapshot| ==>
                  && g.clients[c].wire == client.wire + (if Tagged(snapshot[n]) && !Wants(steps, c, snapshot[n].iteration.value) then [] else [snapshot[n]])
                  && |g.clients[c].shownAs| == n + 1 && g.clients[c].state.queue == queue)
            && (n == |snapshot| && queue != [] ==> g.clients[c].wire == client.wire + [queue[0]] && g.clients[c].state.queue == queue[1..])
            && (n == |snapshot| && queue == [] ==> g == Run(steps))
  {
    hide Wants, Passed, Run;
    var h := Run(steps);
    var client := h.clients[c];
    RunsKeepInv(steps);
    assert ClientSound(h, client);
    assert Run(steps + [SendOne(c)]) == Apply(h, SendOne(c)) by { OneMoreStep(steps, SendOne(c)); }
    hide Inv, ClientSound, Apply;
    SendsNext(h, c);
    var n := |client.shownAs|;
    if n < |client.snapshot.value| && Tagged(client.snapshot.value[n]) {
      SubscriptionsAreWants(steps, c, client.snapshot.value[n].iteration.value);
    }
  }

  lemma OneMoreStep(steps: seq<Step>, step: Step)
    ensures Run(steps + [step]) == Apply(Run(steps), step)
  {
    assert (steps + [step])[..|steps|] == steps;
  }

  lemma SendsNext(h: Hub, c: nat)
    requires Reading(h, c) && |h.clients[c].shownAs| <= |h.clients[c].snapshot.value|
    ensures var client, g := h.clients[c], Apply(h, SendOne(c));
            var n, queue, snapshot := |client.shownAs|, client.state.queue, client.snapshot.value;
            && c in g.clients
            && (n < |snapshot| ==>
                  && g.clients[c].wire == client.wire + (if Tagged(snapshot[n]) && snapshot[n].iteration.value !in client.state.subscriptions then [] else [snapshot[n]])
                  && |g.clients[c].shownAs| == n + 1 && g.clients[c].state.queue == queue)
            && (n == |snapshot| && queue != [] ==> g.clients[c].wire == client.wire + [queue[0]] && g.clients[c].state.queue == queue[1..])
            && (n == |snapshot| && queue == [] ==> g == h)
  {
    if |h.clients[c].shownAs| == |h.clients[c].snapshot.value| && h.clients[c].state.queue == [] {
      assert h.clients[c := h.clients[c]] == h.clients;
    }
  }

  /** Over every run: a snapshot is read once, after the subscription, and is
      the cache while the turn is in flight and the read succeeds; otherwise it
      is empty. Nothing that was queued before it is lost. */
  lemma SnapshotIsTheCache(steps: seq<Step>, c: nat, ok: bool)
    requires c in Run(steps).clients
    ensures var h, g := Run(steps), Run(steps + [ReadSnapshot(c, ok)]);
            if h.clients[c].snapshot.Some? || !h.pump.Listening? then g == h
            else
              && c in g.clients && g.clients[c].state == h.clients[c].state
              && g.clients[c].snapshot == Some(if ok && h.inFlight then h.chunks else [])
  {
    assert (steps + [ReadSnapshot(c, ok)])[..|steps|] == steps;
  }

  /** Over every run: the turn is in flight until it is finished, which it can
      be only with every chunk published; chunks are published in their order. */
  lemma {:induction false} ChunksArePublishedInOrder(steps: seq<Step>)
    ensures PublishesInOrder(Run(steps)) && (!Run(steps).inFlight ==> FinishTurn in steps)
  {
    if steps != [] {
      hide Apply, PublishesInOrder;
      var init, last := steps[..|steps| - 1], steps[|steps| - 1];
      ChunksArePublishedInOrder(init);
      assert steps == init + [last];
      OneStepPublishes(Run(init), last);
    } else {
      assert PublishesInOrder(EMPTY);
    }
  }

  /** Over every run: any other frame published on the key goes to the end of the
      channel, too. */
  lemma OtherFramesArePublished(steps: seq<Step>, f: Frame)
    ensures Run(steps + [PublishOther(f)]) == Run(steps).(published := Run(steps).published + [f])
  {
    assert (steps + [PublishOther(f)])[..|steps|] == steps;
  }

  ghost predicate PublishesInOrder(h: Hub) {
    && |h.places| <= |h.chunks| && (!h.inFlight ==> |h.places| == |h.chunks|)
    && (forall k :: 0 <= k < |h.places| ==> h.places[k] < |h.published| && h.published[h.places[k]] == h.chunks[k])
    && (forall j, k :: 0 <= j < k < |h.places| ==> h.places[j] < h.places[k])
  }

  lemma OneStepPublishes(h: Hub, step: Step)
    requires PublishesInOrder(h)
    ensures PublishesInOrder(Apply(h, step))
    ensures h.inFlight && !Apply(h, step).inFlight ==> step == FinishTurn
  {
    if step.CacheChunk? || step.PublishChunk? || step.PublishOther? || step.FinishTurn? {
      hide Deliver, Steer;
    } else {
      PublisherOnly(h, step);
      hide Apply;
    }
  }

  lemma PublisherOnly(h: Hub, step: Step)
    requires !step.CacheChunk? && !step.PublishChunk? && !step.PublishOther? && !step.FinishTurn?
    ensures var g := Apply(h, step);
            g.chunks == h.chunks && g.places == h.places && g.published == h.published && g.inFlight == h.inFlight
  {
    hide Deliver, Steer, Send, Hear;
  }

  ghost predicate Asked(steps: seq<Step>, c: nat, i: string) {
    exists n :: 0 <= n < |steps| && steps[n].Receive? && steps[n].client == c && AsksFor(steps[n].message, i)
  }

  lemma WantingAsks(steps: seq<Step>, c: nat, i: string)
    requires Wants(steps, c, i)
    ensures Asked(steps, c, i)
  {
    hide Run, AsksFor;
    var n :| 0 <= n < |steps| && AskedAt(steps, c, i, n);
  }

  lemma AskedSnoc(steps: seq<Step>, step: Step, c: nat, i: string)
    requires Asked(steps, c, i)
    ensures Asked(steps + [step], c, i)
  {
    hide AsksFor;
    var n :| 0 <= n < |steps| && steps[n].Receive? && steps[n].client == c && AsksFor(steps[n].message, i);
    assert (steps + [step])[n] == steps[n];
  }

  /** What a step adds to what a client was sent or will be. */
  lemma OneStepFrames(h: Hub, step: Step, c: nat, f: Frame)
    requires c in Apply(h, step).clients && Tagged(f)
    requires var client := Apply(h, step).clients[c]; f in client.wire || f in client.state.queue
    ensures c in h.clients
    ensures var client := h.clients[c];
            f in client.wire || f in client.state.queue || f.iteration.value in client.state.subscriptions
  {
  }

  /** A client that never asked for an iteration gets none of its frames, be it
      from the snapshot or live. */
  lemma {:induction false} NeverAskedNeverSent(steps: seq<Step>, c: nat, f: Frame)
    requires c in Run(steps).clients && Tagged(f)
    requires f in Run(steps).clients[c].wire || f in Run(steps).clients[c].state.queue
    ensures Asked(steps, c, f.iteration.value)
  {
    hide Apply, Wants, Asked;
    if steps != [] {
      var init, last := steps[..|steps| - 1], steps[|steps| - 1];
      assert steps == init + [last];
      var h := Run(init);
      OneStepFrames(h, last, c, f);
      if f in h.clients[c].wire || f in h.clients[c].state.queue {
        NeverAskedNeverSent(init, c, f);
      } else {
        SubscriptionsAreWants(init, c, f.iteration.value);
        WantingAsks(init, c, f.iteration.value);
      }
      AskedSnoc(init, last, c, f.iteration.value);
    }
  }

  // ---------------------------------------------------------------- the manager runs the machine

  /** The manager's table at this key. */
  function Table(h: Hub): map<nat, ClientState> {
    map c | c in h.clients :: h.clients[c].state
  }

  /** The manager holds at `key` what the machine says, and its pump with it. */
  ghost predicate Mirrors<Key>(m: WebSocketManager<Key, nat>, key: Key, h: Hub)
    reads m
  {
    && (h.clients == map[] <==> key !in m.clients)
    && (key in m.clients ==> key in m.pumps && m.clients[key] == Table(h) && m.pumps[key] == h.pump.Listening?)
  }

  lemma TableEmptyIff(h: Hub)
    ensures Table(h) == map[] <==> h.clients == map[]
  {
    if c :| c in h.clients {
      assert c in Table(h);
    }
  }

  lemma JoinTable(h: Hub, c: nat)
    requires c !in h.clients
    ensures Table(Apply(h, Join(c))) == Table(h)[c := ClientState([], {})]
  {
    assert Table(Apply(h, Join(c))).Keys == Table(h).Keys + {c};
  }

  lemma SubscribedTable(h: Hub)
    ensures Table(Apply(h, Subscribed)) == Table(h)
  {
    assert Table(Apply(h, Subscribed)).Keys == Table(h).Keys;
  }

  lemma PumpTable(h: Hub)
    requires h.pump.Listening? && h.pump.next < |h.published|
    ensures Table(Apply(h, PumpOne)) == map s | s in Table(h) :: Deliver(Table(h)[s], h.published[h.pump.next])
  {
    hide Deliver;
  }

  lemma SendTable(h: Hub, c: nat)
    requires c in h.clients
    ensures Table(Apply(h, SendOne(c))) == Table(h)[c := Send(h.clients[c]).state]
  {
    hide Send;
    assert Table(Apply(h, SendOne(c))).Keys == Table(h).Keys;
  }

  lemma ReceiveTable(h: Hub, c: nat, m: Control)
    requires c in h.clients && h.clients[c].snapshot.Some?
    ensures Table(Apply(h, Receive(c, m))) == Table(h)[c := Steer(Table(h)[c], m)]
  {
    hide Steer;
    assert Table(Apply(h, Receive(c, m))).Keys == Table(h).Keys;
  }

  lemma LeaveTable(h: Hub, c: nat)
    ensures Table(Apply(h, Leave(c))) == Table(h) - {c}
  {
  }

  /** Reading a snapshot, and everything the publisher does, leaves it alone. */
  lemma QuietTable(h: Hub, step: Step)
    requires step.CacheChunk? || step.PublishChunk? || step.PublishOther? || step.FinishTurn? || step.ReadSnapshot?
    ensures Table(Apply(h, step)) == Table(h) && Apply(h, step).pump == h.pump
  {
    assert Table(Apply(h, step)).Keys == Table(h).Keys;
  }

  predicate AboutClients(step: Step) {
    step.Join? || step.SendOne? || step.Receive? || step.Leave?
  }

  /** One step of a client, done by the manager's own methods. */
  method TakeClientStep<Key(==)>(m: WebSocketManager<Key, nat>, key: Key, h: Hub, step: Step)
    requires m.Valid() && Mirrors(m, key, h) && Inv(h) && AboutClients(step)
    modifies m
    ensures m.Valid() && Mirrors(m, key, Apply(h, step))
    ensures forall k :: k != key ==> (k in m.clients <==> k in old(m.clients)) && (k in m.clients ==> m.clients[k] == old(m.clients)[k])
  {
    hide Apply, Inv, Steer, Send, Table;
    TableEmptyIff(h);
    TableEmptyIff(Apply(h, step));
    TableKeys(h);
    InvPump(h);
    StepPump(h, step);
    match step
    case Join(c) =>
      if c !in h.clients {
        JoinTable(h, c);
        var _ := m.Register(key, c);
      }
    case SendOne(c) =>
      if c in h.clients {
        SendTable(h, c);
        SendTakes(h, c);
        if Takes(h.clients[c]) {
          var _ := m.TakeNext(key, c);
        }
      }
    case Receive(c, message) =>
      if c in h.clients && h.clients[c].snapshot.Some? {
        ReceiveTable(h, c, message);
        m.HandleControl(key, c, message);
      }
    case Leave(c) =>
      LeaveTable(h, c);
      m.Remove(key, c);
  }

  /** One step of the machine, done by the manager's own methods. */
  method TakeStep<Key(==)>(m: WebSocketManager<Key, nat>, key: Key, h: Hub, step: Step)
    requires m.Valid() && Mirrors(m, key, h) && Inv(h)
    modifies m
    ensures m.Valid() && Mirrors(m, key, Apply(h, step))
    ensures forall k :: k != key ==> (k in m.clients <==> k in old(m.clients)) && (k in m.clients ==> m.clients[k] == old(m.clients)[k])
  {
    hide Apply, Inv, Deliver, Table;
    if AboutClients(step) {
      TakeClientStep(m, key, h, step);
      return;
    }
    TableEmptyIff(h);
    TableEmptyIff(Apply(h, step));
    InvPump(h);
    StepPump(h, step);
    match step
    case Subscribed =>
      SubscribedTable(h);
      if key in m.pumps {
        if !m.pumps[key] { m.Acknowledge(key); }
      }
    case PumpOne =>
      if h.pump.Listening? && h.pump.next < |h.published| {
        PumpTable(h);
        m.Fanout(key, h.published[h.pump.next]);
      }
    case _ =>
      QuietTable(h, step);
  }

  lemma TableKeys(h: Hub)
    ensures Table(h).Keys == h.clients.Keys
    ensures forall c :: c in h.clients ==> Table(h)[c] == h.clients[c].state
  {
  }

  lemma InvPump(h: Hub)
    requires Inv(h)
    ensures h.pump.NoPump? <==> h.clients == map[]
  {
  }

  predicate Takes(c: Client) {
    c.snapshot.Some? && |c.shownAs| == |c.snapshot.value| && c.state.queue != []
  }

  lemma SendTakes(h: Hub, c: nat)
    requires Inv(h) && c in h.clients
    ensures Send(h.clients[c]).state == if Takes(h.clients[c]) then Taken(h.clients[c].state) else h.clients[c].state
  {
    hide Passed;
    assert ClientSound(h, h.clients[c]);
  }

  /** What a step does to the pump, and when it does nothing at all. */
  lemma StepPump(h: Hub, step: Step)
    ensures step.Join? && step.client in h.clients ==> Apply(h, step) == h
    ensures step.Join? && step.client !in h.clients ==> Apply(h, step).pump.Listening? == h.pump.Listening?
    ensures step.Subscribed? ==> Apply(h, step).pump.Listening? == !h.pump.NoPump?
    ensures step.PumpOne? ==> Apply(h, step).pump.Listening? == h.pump.Listening?
    ensures step.PumpOne? && !(h.pump.Listening? && h.pump.next < |h.published|) ==> Apply(h, step) == h
    ensures step.SendOne? ==> Apply(h, step).pump == h.pump && (step.client !in h.clients ==> Apply(h, step) == h)
    ensures step.Receive? ==> Apply(h, step).pump == h.pump
    ensures step.Receive? && (step.client !in h.clients || h.clients[step.client].snapshot.None?) ==> Apply(h, step) == h
    ensures step.Leave? ==> Apply(h, step).clients == h.clients - {step.client}
    ensures step.Leave? && h.clients - {step.client} != map[] ==> Apply(h, step).pump == h.pump
  {
    hide Deliver, Steer, Send;
  }

  /** One key of a manager over any schedule: its clients, queues, subscriptions
      and pump are those of the machine, and no other key is touched. */
  method ServeKey<Key(==)>(m: WebSocketManager<Key, nat>, key: Key, steps: seq<Step>)
    requires m.Valid() && key !in m.clients
    modifies m
    ensures m.Valid() && Mirrors(m, key, Run(steps))
    ensures forall k :: k != key ==> (k in m.clients <==> k in old(m.clients)) && (k in m.clients ==> m.clients[k] == old(m.clients)[k])
  {
    hide Apply, Inv;
    var h := EMPTY;
    for n := 0 to |steps|
      invariant h == Run(steps[..n]) && m.Valid() && Mirrors(m, key, h)
      invariant forall k :: k != key ==>
                  (k in m.clients <==> k in old(m.clients)) && (k in m.clients ==> m.clients[k] == old(m.clients)[k])
    {
      assert steps[..n + 1][..n] == steps[..n];
      RunsKeepInv(steps[..n]);
      TakeStep(m, key, h, steps[n]);
      h := Apply(h, steps[n]);
    }
    assert steps[..|steps|] == steps;
  }

  /** A key has a pump exactly when it has a client, over every run. */
  lemma {:induction false} PumpIffClient(steps: seq<Step>)
    ensures Run(steps).pump.NoPump? <==> Run(steps).clients == map[]
  {
    RunsKeepInv(steps);
  }

  const CHUNK := Frame("chunk", None, false)

  function Missed(): seq<Step> {
    [CacheChunk(CHUNK), Join(0), PublishChunk, Subscribed, FinishTurn, ReadSnapshot(0, true)]
  }

  /** The in-flight hypothesis is needed: a client that joined before a chunk
      was published misses it when the turn ends between the subscription and
      the snapshot. */
  lemma FinishedTurnIsNotInTheSnapshot()
    ensures var h := Run(Missed());
            && h.places == [0] && h.published == [CHUNK] && 0 in h.clients && h.pump == Listening(1)
            && h.clients[0].snapshot == Some([]) && h.clients[0].state.queue == [] && h.clients[0].wire == []
  {
    hide Run;
    var a := Apply(EMPTY, CacheChunk(CHUNK));
    var b := Apply(a, Join(0));
    var c := Apply(b, PublishChunk);
    var d := Apply(c, Subscribed);
    var e := Apply(d, FinishTurn);
    var f := Apply(e, ReadSnapshot(0, true));
    assert b.clients == map[0 := NewClient(0)] && 0 in b.clients;
    assert d.clients[0] == NewClient(1);
    SixSteps(Missed(), a, b, c, d, e, f);
  }

  lemma SixSteps(steps: seq<Step>, a: Hub, b: Hub, c: Hub, d: Hub, e: Hub, f: Hub)
    requires |steps| == 6
    requires a == Apply(EMPTY, steps[0]) && b == Apply(a, steps[1]) && c == Apply(b, steps[2])
    requires d == Apply(c, steps[3]) && e == Apply(d, steps[4]) && f == Apply(e, steps[5])
    ensures Run(steps) == f
  {
    hide Apply;
    forall n | 0 < n <= 6 ensures Run(steps[..n]) == Apply(Run(steps[..n - 1]), steps[n - 1]) {
      assert steps[..n][..n - 1] == steps[..n - 1];
    }
    assert steps[..6] == steps && steps[..0] == [];
    assert Run(steps[..3]) == c;
  }
}
