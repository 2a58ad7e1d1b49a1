/** One server and any number of clients exchanging sync frames, after `handle_socket` in
    `server_rust/src/server.rs` and the client loop in `client_rust/src/lib.rs`.

    A frame is the list of messages it holds.  Every connection owns six things: the client's
    document, its outbox of local edits, the two directions of its socket, its backlog on the
    broadcast channel, and what its server task has still to broadcast.  The server applies a
    frame in one step and broadcasts each result in a later step of its own. */
module SyncSystem {
  import opened SyncCodec

  type Frame = seq<Msg>

  /** What the server has done for a connection: nothing yet, sent its state vector, subscribed it
      to the broadcast channel. */
  datatype Stage = Accepted | Greeted | Subscribed

  datatype Conn = Conn(
    ops: Ops,               // the client's document
    announced: bool,        // the client has sent its own state vector
    outbox: seq<Frame>,     // local edits on their way to the client's sync task
    up: seq<Frame>,         // socket, client to server
    stage: Stage,
    pending: seq<Frame>,    // results the server task of this connection has still to broadcast
    feed: seq<Frame>,       // backlog of this connection's broadcast receiver
    down: seq<Frame>)       // socket, server to client

  datatype System = System(server: Ops, conns: seq<Conn>)

  datatype Step =
    | Connect(initial: Ops)
    | Edit(i: nat, added: Ops)
    | Greet(i: nat)
    | Subscribe(i: nat)
    | Announce(i: nat)
    | SendEdit(i: nat)
    | ServerApply(i: nat)
    | Broadcast(i: nat)
    | Forward(i: nat)
    | ClientApply(i: nat)

  // ---------------------------------------------------------------- steps

  function Handle(ops: Ops, f: Frame): Effect {
    ActAll(Effect(ops, [], None), f)
  }

  /** What the server broadcasts after a frame: the merged reply, then the update. */
  function Results(r: Effect): seq<Frame> {
    (if r.replies == [] then [] else [r.replies])
    + (if r.update.None? then [] else [[Update(r.update.value)]])
  }

  function Deliver(cs: seq<Conn>, f: Frame): (out: seq<Conn>)
    ensures |out| == |cs|
  {
    seq(|cs|, j requires 0 <= j < |cs| =>
      if cs[j].stage == Subscribed then cs[j].(feed := cs[j].feed + [f]) else cs[j])
  }

  predicate Enabled(s: System, t: Step) {
    if t.Connect? then true
    else
      t.i < |s.conns|
      && var c := s.conns[t.i];
      match t
      case Edit(_, _) => true
      case Greet(_) => c.stage == Accepted
      case Subscribe(_) => c.stage == Greeted
      case Announce(_) => !c.announced
      case SendEdit(_) => c.announced && c.outbox != []
      case ServerApply(_) => c.stage == Subscribed && c.up != [] && c.pending == []
      case Broadcast(_) => c.pending != []
      case Forward(_) => c.feed != []
      case ClientApply(_) => c.announced && c.down != []
  }

  function Put(s: System, i: nat, c: Conn): System
    requires i < |s.conns|
  {
    s.(conns := s.conns[i := c])
  }

  function ClientHandles(c: Conn): Conn
    requires c.down != []
  {
    var r := Handle(c.ops, c.down[0]);
    c.(ops := r.ops, down := c.down[1..], up := if r.replies == [] then c.up else c.up + [r.replies])
  }

  function Next(s: System, t: Step): System
    requires Enabled(s, t)
  {
    match t
    case Connect(initial) => s.(conns := s.conns + [Conn(initial, false, [], [], Accepted, [], [], [])])
    case Edit(i, added) =>
      var c := s.conns[i];
      Put(s, i, c.(ops := c.ops + added, outbox := c.outbox + [[Update(added - c.ops)]]))
    case Greet(i) => Put(s, i, s.conns[i].(stage := Greeted, down := s.conns[i].down + [[Step1(s.server)]]))
    case Subscribe(i) => Put(s, i, s.conns[i].(stage := Subscribed))
    case Announce(i) => Put(s, i, s.conns[i].(announced := true, up := s.conns[i].up + [[Step1(s.conns[i].ops)]]))
    case SendEdit(i) =>
      var c := s.conns[i];
      Put(s, i, c.(outbox := c.outbox[1..], up := c.up + [c.outbox[0]]))
    case ServerApply(i) =>
      var c := s.conns[i];
      var r := Handle(s.server, c.up[0]);
      System(r.ops, s.conns[i := c.(up := c.up[1..], pending := Results(r))])
    case Broadcast(i) =>
      var c := s.conns[i];
      s.(conns := Deliver(s.conns[i := c.(pending := c.pending[1..])], c.pending[0]))
    case Forward(i) =>
      var c := s.conns[i];
      Put(s, i, c.(feed := c.feed[1..], down := c.down + [c.feed[0]]))
    case ClientApply(i) => Put(s, i, ClientHandles(s.conns[i]))
  }

  // ---------------------------------------------------------------- what queues carry

  /** The operations an update or an answer carries. */
  function Carries(f: Frame): Ops {
    if |f| == 1 && (f[0].Step2? || f[0].Update?) then f[0].ops else {}
  }

  function Carried(q: seq<Frame>): Ops {
    if q == [] then {} else Carries(q[0]) + Carried(q[1..])
  }

  /** The operations in the results the server has still to broadcast. */
  function InFlight(cs: seq<Conn>): Ops {
    if cs == [] then {} else Carried(cs[0].pending) + InFlight(cs[1..])
  }

  /** A frame holding one state vector, of operations within `known`. */
  predicate Asks(f: Frame, known: Ops) {
    |f| == 1 && f[0].Step1? && f[0].sv <= known
  }

  /** A frame holding one update or answer, of operations within `known`. */
  predicate Data(f: Frame, known: Ops) {
    |f| == 1 && (f[0].Step2? || f[0].Update?) && f[0].ops <= known
  }

  ghost predicate AllData(q: seq<Frame>, known: Ops) {
    forall k :: 0 <= k < |q| ==> Data(q[k], known)
  }

  predicate HasStep1(q: seq<Frame>) {
    exists k :: 0 <= k < |q| && |q[k]| == 1 && q[k][0].Step1?
  }

  ghost predicate Single(q: seq<Frame>, known: Ops) {
    forall k :: 0 <= k < |q| ==> Data(q[k], known) || Asks(q[k], known)
  }

  // ---------------------------------------------------------------- the invariant

  /** The server's state vector has still to reach the client. */
  predicate ServerWillAsk(c: Conn) {
    c.stage == Accepted || HasStep1(c.down)
  }

  /** The client's state vector has still to reach the server. */
  predicate ClientWillAsk(c: Conn) {
    !c.announced || HasStep1(c.up)
  }

  /** Every frame of a connection holds exactly one message, of operations its sender has. */
  ghost predicate WellFormed(c: Conn, server: Ops) {
    && AllData(c.outbox, c.ops)
    && Single(c.up, c.ops)
    && AllData(c.pending, server)
    && AllData(c.feed, server)
    && Single(c.down, server)
  }

  /** Nothing the client holds can be lost on the way to the server. */
  ghost predicate UpSafe(c: Conn, server: Ops) {
    ServerWillAsk(c) || c.ops <= server + Carried(c.outbox) + Carried(c.up)
  }

  /** Nothing the server holds can be lost on the way to the client. */
  ghost predicate DownSafe(c: Conn, server: Ops, inFlight: Ops) {
    ClientWillAsk(c) || server <= c.ops + Carried(c.down) + Carried(c.feed) + inFlight
  }

  /** Of a connection that is not subscribed the server has read nothing and sends it nothing but
      its own state vector. */
  ghost predicate Staged(c: Conn) {
    c.stage != Subscribed ==> c.pending == [] && c.feed == [] && ClientWillAsk(c)
  }

  ghost predicate Good(c: Conn, server: Ops, inFlight: Ops) {
    WellFormed(c, server) && UpSafe(c, server) && DownSafe(c, server, inFlight) && Staged(c)
  }

  ghost predicate Inv(s: System) {
    forall i :: 0 <= i < |s.conns| ==> Good(s.conns[i], s.server, InFlight(s.conns))
  }

  // ---------------------------------------------------------------- frames and queues

  /** One message in, one message out: an answer to a state vector, or the update passed on, so
      the first update of a frame is all of its updates. */
  lemma HandleSingle(ops: Ops, f: Frame)
    requires |f| == 1 && !f[0].Awareness?
    ensures f[0].Step1? ==> Handle(ops, f) == Effect(ops, [Step2(ops - f[0].sv)], None)
    ensures !f[0].Step1? ==> Handle(ops, f) == Effect(ops + f[0].ops, [], Some(f[0].ops))
  {
    assert f[1..] == [];
    assert ActAll(Act(Effect(ops, [], None), f[0]), f[1..]) == Act(Effect(ops, [], None), f[0]);
  }

  lemma {:induction false} CarriedAppend(q: seq<Frame>, f: Frame)
    ensures Carried(q + [f]) == Carried(q) + Carries(f)
    decreases |q|
  {
    if q == [] {
      assert (q + [f])[1..] == [];
    } else {
      assert (q + [f])[1..] == q[1..] + [f];
      CarriedAppend(q[1..], f);
    }
  }

  lemma {:induction false} InFlightHas(cs: seq<Conn>, i: nat)
    requires i < |cs|
    ensures Carried(cs[i].pending) <= InFlight(cs)
    decreases |cs|
  {
    if i > 0 {
      InFlightHas(cs[1..], i - 1);
    }
  }

  /** Replacing one connection loses from what is in flight at most what that connection drops. */
  lemma {:induction false} InFlightPut(cs: seq<Conn>, i: nat, c: Conn, dropped: Ops)
    requires i < |cs|
    requires Carried(cs[i].pending) <= Carried(c.pending) + dropped
    ensures InFlight(cs) <= InFlight(cs[i := c]) + dropped
    decreases |cs|
  {
    var now := cs[i := c];
    if i == 0 {
      assert now[1..] == cs[1..];
    } else {
      assert now[1..] == cs[1..][i - 1 := c];
      InFlightPut(cs[1..], i - 1, c, dropped);
    }
  }

  lemma {:induction false} InFlightDeliver(cs: seq<Conn>, f: Frame)
    ensures InFlight(Deliver(cs, f)) == InFlight(cs)
    decreases |cs|
  {
    if cs != [] {
      assert Deliver(cs, f)[1..] == Deliver(cs[1..], f);
      InFlightDeliver(cs[1..], f);
    }
  }

  lemma {:induction false} InFlightAppend(cs: seq<Conn>, c: Conn)
    requires c.pending == []
    ensures InFlight(cs + [c]) == InFlight(cs)
    decreases |cs|
  {
    if cs == [] {
      assert (cs + [c])[1..] == [];
    } else {
      assert (cs + [c])[1..] == cs[1..] + [c];
      InFlightAppend(cs[1..], c);
    }
  }

  // ---------------------------------------------------------------- every step keeps the invariant

  /** More on the server that is also in flight keeps a connection good. */
  lemma GoodGrows(c: Conn, server: Ops, inFlight: Ops, server': Ops, inFlight': Ops)
    requires Good(c, server, inFlight)
    requires server <= server' <= server + inFlight' && inFlight <= inFlight'
    ensures Good(c, server', inFlight')
  {
  }

  lemma EditKeeps(c: Conn, server: Ops, inFlight: Ops, added: Ops)
    requires Good(c, server, inFlight)
    ensures Good(c.(ops := c.ops + added, outbox := c.outbox + [[Update(added - c.ops)]]), server, inFlight)
  {
    CarriedAppend(c.outbox, [Update(added - c.ops)]);
  }

  lemma GreetKeeps(c: Conn, server: Ops, inFlight: Ops)
    requires Good(c, server, inFlight) && c.stage == Accepted
    ensures Good(c.(stage := Greeted, down := c.down + [[Step1(server)]]), server, inFlight)
  {
    var d := c.down + [[Step1(server)]];
    assert d[|c.down|] == [Step1(server)];
  }

  lemma AnnounceKeeps(c: Conn, server: Ops, inFlight: Ops)
    requires Good(c, server, inFlight)
    ensures Good(c.(announced := true, up := c.up + [[Step1(c.ops)]]), server, inFlight)
  {
    var u := c.up + [[Step1(c.ops)]];
    assert u[|c.up|] == [Step1(c.ops)];
    CarriedAppend(c.up, [Step1(c.ops)]);
  }

  lemma HasStep1Append(q: seq<Frame>, f: Frame)
    requires HasStep1(q)
    ensures HasStep1(q + [f])
  {
    var k :| 0 <= k < |q| && |q[k]| == 1 && q[k][0].Step1?;
    assert (q + [f])[k] == q[k];
  }

  lemma HasStep1Rest(q: seq<Frame>)
    requires HasStep1(q) && q != [] && (|q[0]| == 1 ==> !q[0][0].Step1?)
    ensures HasStep1(q[1..])
  {
    var k :| 0 <= k < |q| && |q[k]| == 1 && q[k][0].Step1?;
    assert q[1..][k - 1] == q[k];
  }

  lemma SendEditKeeps(c: Conn, server: Ops, inFlight: Ops)
    requires Good(c, server, inFlight) && c.announced && c.outbox != []
    ensures Good(c.(outbox := c.outbox[1..], up := c.up + [c.outbox[0]]), server, inFlight)
  {
    CarriedAppend(c.up, c.outbox[0]);
    if HasStep1(c.up) { HasStep1Append(c.up, c.outbox[0]); }
  }

  lemma ForwardKeeps(c: Conn, server: Ops, inFlight: Ops)
    requires Good(c, server, inFlight) && c.feed != []
    ensures Good(c.(feed := c.feed[1..], down := c.down + [c.feed[0]]), server, inFlight)
  {
    CarriedAppend(c.down, c.feed[0]);
    if HasStep1(c.down) { HasStep1Append(c.down, c.feed[0]); }
  }

  lemma ClientApplyKeeps(c: Conn, server: Ops, inFlight: Ops)
    requires Good(c, server, inFlight) && c.announced && c.down != []
    ensures Good(ClientHandles(c), server, inFlight)
  {
    HandleSingle(c.ops, c.down[0]);
    var now := ClientHandles(c);
    if c.down[0][0].Step1? {
      var answer := [Step2(c.ops - c.down[0][0].sv)];
      CarriedAppend(c.up, answer);
      if HasStep1(c.up) { HasStep1Append(c.up, answer); }
    } else {
      if HasStep1(c.down) { HasStep1Rest(c.down); }
    }
  }

  /** What a frame of `c` does on the server: the document after it and the connection with its
      results still to broadcast. */
  lemma ResultsOf(server: Ops, f: Frame, known: Ops)
    requires Data(f, known) || Asks(f, known)
    ensures var r := Handle(server, f);
            && server <= r.ops <= server + known
            && AllData(Results(r), r.ops)
            && (f[0].Step1? ==> r.ops == server && server <= known + Carried(Results(r)))
            && (!f[0].Step1? ==> r.ops == server + f[0].ops && Carried(Results(r)) == f[0].ops)
  {
    HandleSingle(server, f);
    var q := Results(Handle(server, f));
    if f[0].Step1? {
      assert q == [[Step2(server - f[0].sv)]];
    } else {
      assert q == [[Update(f[0].ops)]];
    }
    assert q[1..] == [];
    assert Carried(q) == Carries(q[0]);
  }

  lemma ServerApplyKeeps(s: System, i: nat)
    requires Inv(s) && Enabled(s, ServerApply(i))
    ensures Inv(Next(s, ServerApply(i)))
  {
    var c := s.conns[i];
    var f := c.up[0];
    var r := Handle(s.server, f);
    assert Good(c, s.server, InFlight(s.conns));
    assert Data(f, c.ops) || Asks(f, c.ops);
    ResultsOf(s.server, f, c.ops);
    var c' := c.(up := c.up[1..], pending := Results(r));
    var cs := s.conns[i := c'];
    InFlightPut(s.conns, i, c', {});
    InFlightHas(cs, i);
    forall j | 0 <= j < |cs| ensures Good(cs[j], r.ops, InFlight(cs)) {
      if j != i {
        GoodGrows(s.conns[j], s.server, InFlight(s.conns), r.ops, InFlight(cs));
      } else {
        ServedKeeps(c, s.server, InFlight(s.conns), InFlight(cs));
      }
    }
  }

  lemma ServedKeeps(c: Conn, server: Ops, inFlight: Ops, inFlight': Ops)
    requires Good(c, server, inFlight) && c.stage == Subscribed && c.up != [] && c.pending == []
    requires var r := Handle(server, c.up[0]);
             Carried(Results(r)) <= inFlight' && inFlight <= inFlight'
    ensures var r := Handle(server, c.up[0]);
            Good(c.(up := c.up[1..], pending := Results(r)), r.ops, inFlight')
  {
    var f := c.up[0];
    assert Data(f, c.ops) || Asks(f, c.ops);
    ResultsOf(server, f, c.ops);
    if !f[0].Step1? && HasStep1(c.up) { HasStep1Rest(c.up); }
  }

  lemma BroadcastKeeps(s: System, i: nat)
    requires Inv(s) && Enabled(s, Broadcast(i))
    ensures Inv(Next(s, Broadcast(i)))
  {
    var c := s.conns[i];
    var f := c.pending[0];
    assert Good(c, s.server, InFlight(s.conns));
    var c' := c.(pending := c.pending[1..]);
    var mid := s.conns[i := c'];
    InFlightPut(s.conns, i, c', Carries(f));
    InFlightDeliver(mid, f);
    var cs := Deliver(mid, f);
    forall j | 0 <= j < |cs| ensures Good(cs[j], s.server, InFlight(cs)) {
      assert Good(s.conns[j], s.server, InFlight(s.conns));
      CarriedAppend(mid[j].feed, f);
      ReceivedKeeps(mid[j], s.server, InFlight(s.conns), InFlight(cs), f);
    }
  }

  /** A connection that receives a broadcast, or is not subscribed, loses nothing by it. */
  lemma ReceivedKeeps(c: Conn, server: Ops, inFlight: Ops, inFlight': Ops, f: Frame)
    requires Good(c, server, inFlight) && Data(f, server) && inFlight <= inFlight' + Carries(f)
    requires Carried(c.feed + [f]) == Carried(c.feed) + Carries(f)
    ensures Good(if c.stage == Subscribed then c.(feed := c.feed + [f]) else c, server, inFlight')
  {
  }

  lemma ConnectKeeps(s: System, initial: Ops)
    requires Inv(s)
    ensures Inv(Next(s, Connect(initial)))
  {
    var c := Conn(initial, false, [], [], Accepted, [], [], []);
    InFlightAppend(s.conns, c);
    var cs := s.conns + [c];
    forall j | 0 <= j < |cs| ensures Good(cs[j], s.server, InFlight(cs)) {
      if j < |s.conns| {
        assert cs[j] == s.conns[j];
      }
    }
  }

  /** A step of one connection alone, which drops nothing from what is in flight. */
  lemma PutKeeps(s: System, i: nat, c: Conn)
    requires Inv(s) && i < |s.conns| && c.pending == s.conns[i].pending
    requires Good(c, s.server, InFlight(s.conns))
    ensures Inv(Put(s, i, c))
  {
    InFlightPut(s.conns, i, c, {});
    var cs := s.conns[i := c];
    forall j | 0 <= j < |cs| ensures Good(cs[j], s.server, InFlight(cs)) {
      var was := if j == i then c else s.conns[j];
      GoodGrows(was, s.server, InFlight(s.conns), s.server, InFlight(cs));
    }
  }

  /** Every step keeps the invariant. */
  lemma StepKeeps(s: System, t: Step)
    requires Inv(s) && Enabled(s, t)
    ensures Inv(Next(s, t))
  {
    if t.Connect? {
      ConnectKeeps(s, t.initial);
    } else if t.ServerApply? {
      ServerApplyKeeps(s, t.i);
    } else if t.Broadcast? {
      BroadcastKeeps(s, t.i);
    } else {
      LocalKeeps(s, t);
    }
  }

  lemma LocalKeeps(s: System, t: Step)
    requires Inv(s) && Enabled(s, t) && !t.Connect? && !t.ServerApply? && !t.Broadcast?
    ensures Inv(Next(s, t))
  {
    var c, fl := s.conns[t.i], InFlight(s.conns);
    assert Good(c, s.server, fl);
    match t
    case Edit(i, added) =>
      EditKeeps(c, s.server, fl, added);
      PutKeeps(s, i, c.(ops := c.ops + added, outbox := c.outbox + [[Update(added - c.ops)]]));
    case Greet(i) =>
      GreetKeeps(c, s.server, fl);
      PutKeeps(s, i, c.(stage := Greeted, down := c.down + [[Step1(s.server)]]));
    case Subscribe(i) => PutKeeps(s, i, c.(stage := Subscribed));
    case Announce(i) =>
      AnnounceKeeps(c, s.server, fl);
      PutKeeps(s, i, c.(announced := true, up := c.up + [[Step1(c.ops)]]));
    case SendEdit(i) =>
      SendEditKeeps(c, s.server, fl);
      PutKeeps(s, i, c.(outbox := c.outbox[1..], up := c.up + [c.outbox[0]]));
    case Forward(i) =>
      ForwardKeeps(c, s.server, fl);
      PutKeeps(s, i, c.(feed := c.feed[1..], down := c.down + [c.feed[0]]));
    case ClientApply(i) =>
      ClientApplyKeeps(c, s.server, fl);
      PutKeeps(s, i, ClientHandles(c));
  }

  // ---------------------------------------------------------------- whole runs

  /** Every step of the run is enabled where it is taken. */
  predicate Legal(s: System, run: seq<Step>)
    decreases |run|
  {
    run == [] || (Enabled(s, run[0]) && Legal(Next(s, run[0]), run[1..]))
  }

  function After(s: System, run: seq<Step>): System
    requires Legal(s, run)
    decreases |run|
  {
    if run == [] then s else After(Next(s, run[0]), run[1..])
  }

  /** What the run's connects and edits bring in. */
  function Made(run: seq<Step>): Ops {
    if run == [] then {}
    else (match run[0] case Connect(initial) => initial case Edit(_, added) => added case _ => {}) + Made(run[1..])
  }

  function Start(server: Ops): System {
    System(server, [])
  }

  lemma {:induction false} RunKeeps(s: System, run: seq<Step>)
    requires Inv(s) && Legal(s, run)
    ensures Inv(After(s, run))
    decreases |run|
  {
    if run != [] {
      StepKeeps(s, run[0]);
      RunKeeps(Next(s, run[0]), run[1..]);
    }
  }

  /** Everything held anywhere. */
  function Held(s: System): Ops {
    s.server + HeldBy(s.conns)
  }

  function HeldBy(cs: seq<Conn>): Ops {
    if cs == [] then {} else cs[0].ops + HeldBy(cs[1..])
  }

  lemma {:induction false} HeldByPut(cs: seq<Conn>, i: nat, c: Conn)
    requires i < |cs| && cs[i].ops <= c.ops
    ensures HeldBy(cs[i := c]) == HeldBy(cs) + c.ops
    decreases |cs|
  {
    var now := cs[i := c];
    if i == 0 {
      assert now[1..] == cs[1..];
    } else {
      assert now[1..] == cs[1..][i - 1 := c];
      HeldByPut(cs[1..], i - 1, c);
    }
  }

  lemma {:induction false} HeldByDeliver(cs: seq<Conn>, f: Frame)
    ensures HeldBy(Deliver(cs, f)) == HeldBy(cs)
    decreases |cs|
  {
    if cs != [] {
      assert Deliver(cs, f)[1..] == Deliver(cs[1..], f);
      HeldByDeliver(cs[1..], f);
    }
  }

  lemma {:induction false} HeldByAppend(cs: seq<Conn>, c: Conn)
    ensures HeldBy(cs + [c]) == HeldBy(cs) + c.ops
    decreases |cs|
  {
    if cs == [] {
      assert (cs + [c])[1..] == [];
    } else {
      assert (cs + [c])[1..] == cs[1..] + [c];
      HeldByAppend(cs[1..], c);
    }
  }

  lemma {:induction false} HeldByHas(cs: seq<Conn>, i: nat)
    requires i < |cs|
    ensures cs[i].ops <= HeldBy(cs)
    decreases |cs|
  {
    if i > 0 {
      HeldByHas(cs[1..], i - 1);
    }
  }

  /** A step brings in exactly what its edit or connect adds: nothing is lost or invented. */
  lemma StepHolds(s: System, t: Step)
    requires Inv(s) && Enabled(s, t)
    ensures Held(Next(s, t)) == Held(s) + Made([t])
  {
    assert [t][1..] == [];
    var n := Next(s, t);
    if t.Connect? {
      HeldByAppend(s.conns, Conn(t.initial, false, [], [], Accepted, [], [], []));
    } else {
      var c := s.conns[t.i];
      assert Good(c, s.server, InFlight(s.conns));
      HeldByHas(s.conns, t.i);
      match t
      case ServerApply(i) =>
        ResultsOf(s.server, c.up[0], c.ops);
        HeldByPut(s.conns, i, n.conns[i]);
      case Broadcast(i) =>
        var c' := c.(pending := c.pending[1..]);
        HeldByPut(s.conns, i, c');
        HeldByDeliver(s.conns[i := c'], c.pending[0]);
      case ClientApply(i) =>
        HandleSingle(c.ops, c.down[0]);
        HeldByPut(s.conns, i, n.conns[i]);
      case Edit(_, _) | Greet(_) | Subscribe(_) | Announce(_) | SendEdit(_) | Forward(_) =>
        HeldByPut(s.conns, t.i, n.conns[t.i]);
    }
  }

  lemma {:induction false} RunHolds(s: System, run: seq<Step>)
    requires Inv(s) && Legal(s, run)
    ensures Held(After(s, run)) == Held(s) + Made(run)
    decreases |run|
  {
    if run != [] {
      StepKeeps(s, run[0]);
      StepHolds(s, run[0]);
      assert [run[0]][1..] == [];
      RunHolds(Next(s, run[0]), run[1..]);
    }
  }

  /** Nothing of a connection is on its way. */
  predicate Idle(c: Conn) {
    && c.stage == Subscribed && c.announced
    && c.outbox == [] && c.up == [] && c.pending == [] && c.feed == [] && c.down == []
  }

  predicate Quiet(s: System) {
    forall i :: 0 <= i < |s.conns| ==> Idle(s.conns[i])
  }

  lemma {:induction false} QuietFlight(cs: seq<Conn>)
    requires forall i :: 0 <= i < |cs| ==> Idle(cs[i])
    ensures InFlight(cs) == {}
    decreases |cs|
  {
    if cs != [] {
      assert Idle(cs[0]);
      QuietFlight(cs[1..]);
    }
  }

  /** From any start and over any run, once everything sent has arrived all documents are equal,
      and hold exactly what the server started with and what was ever connected or edited. */
  lemma Converged(server: Ops, run: seq<Step>)
    requires Legal(Start(server), run) && Quiet(After(Start(server), run))
    ensures var s := After(Start(server), run);
            && (forall i :: 0 <= i < |s.conns| ==> s.conns[i].ops == s.server)
            && s.server == server + Made(run)
  {
    var s := After(Start(server), run);
    RunKeeps(Start(server), run);
    RunHolds(Start(server), run);
    QuietFlight(s.conns);
    forall i | 0 <= i < |s.conns| ensures s.conns[i].ops == s.server {
      assert Idle(s.conns[i]) && Good(s.conns[i], s.server, InFlight(s.conns));
    }
    AllEqual(s.conns, s.server);
  }

  lemma {:induction false} AllEqual(cs: seq<Conn>, server: Ops)
    requires forall i :: 0 <= i < |cs| ==> cs[i].ops == server
    ensures HeldBy(cs) <= server
    decreases |cs|
  {
    if cs != [] {
      AllEqual(cs[1..], server);
    }
  }

  // ---------------------------------------------------------------- everything sent arrives

  predicate Delivery(t: Step) {
    !t.Connect? && !t.Edit?
  }

  /** A step that moves a connection on as long as it is not idle. */
  function Pick(s: System, i: nat): Step
    requires i < |s.conns|
  {
    var c := s.conns[i];
    if c.stage == Accepted then Greet(i)
    else if c.stage == Greeted then Subscribe(i)
    else if !c.announced then Announce(i)
    else if c.outbox != [] then SendEdit(i)
    else if c.pending != [] then Broadcast(i)
    else if c.up != [] then ServerApply(i)
    else if c.feed != [] then Forward(i)
    else ClientApply(i)
  }

  /** No delivery is left exactly when everything is idle: nothing waits forever. */
  lemma QuietIff(s: System)
    ensures Quiet(s) <==> forall t :: Delivery(t) ==> !Enabled(s, t)
  {
    if !Quiet(s) {
      var i :| 0 <= i < |s.conns| && !Idle(s.conns[i]);
      assert Delivery(Pick(s, i)) && Enabled(s, Pick(s, i));
    } else {
      forall t | Delivery(t) ensures !Enabled(s, t) {
        if t.i < |s.conns| {
          assert Idle(s.conns[t.i]);
        }
      }
    }
  }

  /** `w` for every frame. */
  function Weigh(q: seq<Frame>, w: nat): nat {
    if q == [] then 0 else w + Weigh(q[1..], w)
  }

  /** A frame weighs more than all it can still cause: `n` connections receive each broadcast. */
  function Weight(c: Conn, n: nat): nat {
    (match c.stage case Accepted => 2 * n + 5 case Greeted => 1 case Subscribed => 0)
    + (if c.announced then 0 else 2 * n + 3)
    + Weigh(c.outbox, 2 * n + 3) + Weigh(c.up, 2 * n + 2) + Weigh(c.pending, 2 * n + 1)
    + Weigh(c.feed, 2) + DownWeight(c.down, n)
  }

  function DownWeight(q: seq<Frame>, n: nat): nat {
    if q == [] then 0 else (if HasStep1(q[..1]) then 2 * n + 3 else 1) + DownWeight(q[1..], n)
  }

  function Total(cs: seq<Conn>, n: nat): nat {
    if cs == [] then 0 else Weight(cs[0], n) + Total(cs[1..], n)
  }

  function Measure(s: System): nat {
    Total(s.conns, |s.conns|)
  }

  lemma {:induction false} WeighAppend(q: seq<Frame>, f: Frame, w: nat)
    ensures Weigh(q + [f], w) == Weigh(q, w) + w
    decreases |q|
  {
    if q == [] {
      assert (q + [f])[1..] == [];
    } else {
      assert (q + [f])[1..] == q[1..] + [f];
      WeighAppend(q[1..], f, w);
    }
  }

  lemma {:induction false} DownAppend(q: seq<Frame>, f: Frame, n: nat)
    ensures DownWeight(q + [f], n) == DownWeight(q, n) + (if HasStep1([f]) then 2 * n + 3 else 1)
    decreases |q|
  {
    if q == [] {
      assert (q + [f])[1..] == [] && (q + [f])[..1] == [f];
    } else {
      assert (q + [f])[1..] == q[1..] + [f] && (q + [f])[..1] == q[..1];
      DownAppend(q[1..], f, n);
    }
  }

  lemma {:induction false} TotalPut(cs: seq<Conn>, i: nat, c: Conn, n: nat)
    requires i < |cs|
    ensures Total(cs[i := c], n) + Weight(cs[i], n) == Total(cs, n) + Weight(c, n)
    decreases |cs|
  {
    var now := cs[i := c];
    if i == 0 {
      assert now[1..] == cs[1..];
    } else {
      assert now[1..] == cs[1..][i - 1 := c];
      TotalPut(cs[1..], i - 1, c, n);
    }
  }

  lemma {:induction false} TotalDeliver(cs: seq<Conn>, f: Frame, n: nat)
    ensures Total(Deliver(cs, f), n) <= Total(cs, n) + 2 * |cs|
    decreases |cs|
  {
    if cs != [] {
      assert Deliver(cs, f)[1..] == Deliver(cs[1..], f);
      TotalDeliver(cs[1..], f, n);
      WeighAppend(cs[0].feed, f, 2);
    }
  }

  /** Every delivery makes the measure strictly smaller. */
  lemma DeliveryDecreases(s: System, t: Step)
    requires Inv(s) && Delivery(t) && Enabled(s, t)
    ensures Measure(Next(s, t)) < Measure(s) && |Next(s, t).conns| == |s.conns|
  {
    var n, c := |s.conns|, s.conns[t.i];
    assert Good(c, s.server, InFlight(s.conns));
    if t.Broadcast? {
      var c' := c.(pending := c.pending[1..]);
      TotalPut(s.conns, t.i, c', n);
      TotalDeliver(s.conns[t.i := c'], c.pending[0], n);
    } else {
      TotalPut(s.conns, t.i, Next(s, t).conns[t.i], n);
      StepLightens(s, t, n);
    }
  }

  lemma StepLightens(s: System, t: Step, n: nat)
    requires Delivery(t) && !t.Broadcast? && Enabled(s, t)
    requires WellFormed(s.conns[t.i], s.server)
    ensures Weight(Next(s, t).conns[t.i], n) < Weight(s.conns[t.i], n)
  {
    var c := s.conns[t.i];
    match t
    case Greet(_) => DownAppend(c.down, [Step1(s.server)], n);
    case Subscribe(_) =>
    case Announce(_) => WeighAppend(c.up, [Step1(c.ops)], 2 * n + 2);
    case SendEdit(_) => WeighAppend(c.up, c.outbox[0], 2 * n + 2);
    case ServerApply(_) =>
      HandleSingle(s.server, c.up[0]);
      assert Weigh(Results(Handle(s.server, c.up[0])), 2 * n + 1) == 2 * n + 1;
    case Forward(_) =>
      assert Data(c.feed[0], s.server);
      DownAppend(c.down, c.feed[0], n);
    case ClientApply(_) =>
      HandleSingle(c.ops, c.down[0]);
      assert c.down[..1] == [c.down[0]];
      if c.down[0][0].Step1? {
        assert HasStep1(c.down[..1]);
        WeighAppend(c.up, [Step2(c.ops - c.down[0][0].sv)], 2 * n + 2);
      }
  }

  /** Deliveries alone end: no run of them is longer than the measure where it starts. */
  lemma {:induction false} DeliveriesEnd(s: System, run: seq<Step>)
    requires Inv(s) && Legal(s, run) && forall k :: 0 <= k < |run| ==> Delivery(run[k])
    ensures |run| + Measure(After(s, run)) <= Measure(s)
    decreases |run|
  {
    if run != [] {
      StepKeeps(s, run[0]);
      DeliveryDecreases(s, run[0]);
      DeliveriesEnd(Next(s, run[0]), run[1..]);
    }
  }

  // ---------------------------------------------------------------- the first update only

  /** In every reachable state the server passes on all that a frame brings it, although it keeps
      only the first update of a frame: frames hold one message each. */
  lemma NothingDropped(server: Ops, run: seq<Step>, i: nat)
    requires Legal(Start(server), run) && Enabled(After(Start(server), run), ServerApply(i))
    ensures var s := After(Start(server), run);
            var r := Handle(s.server, s.conns[i].up[0]);
            |s.conns[i].up[0]| == 1 && r.ops <= s.server + Carried(Results(r))
  {
    var s := After(Start(server), run);
    RunKeeps(Start(server), run);
    var c := s.conns[i];
    assert Good(c, s.server, InFlight(s.conns));
    assert Data(c.up[0], c.ops) || Asks(c.up[0], c.ops);
    ResultsOf(s.server, c.up[0], c.ops);
  }

  /** A frame of two updates would lose the second for everybody else. */
  lemma TwoUpdatesLoseOne()
    ensures var r := Handle({}, [Update({1}), Update({2})]);
            r.ops == {1, 2} && Results(r) == [[Update({1})]]
  {
    var f := [Update({1}), Update({2})];
    var st := Act(Effect({}, [], None), f[0]);
    assert f[1..] == [f[1]] && f[1..][1..] == [];
    assert ActAll(st, f[1..]) == ActAll(Act(st, f[1]), []);
  }
}
