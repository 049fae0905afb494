/** Work tracking, peer admission and drain of the TCP transport (p2p/tcp_transport.go). */
module Transport {
  import opened Outcomes

  type Addr = seq<char>

  datatype Phase = Open | Draining | Closed

  /** One connection object; id tells connections with the same remote address apart. */
  datatype Conn = Conn(id: nat, addr: Addr)

  // ---- the fields behind the mutex ----

  /**
   * Channels are numbered in the order they are made; done is the current one and closed holds those that
   * have been closed. gauge is the tracked-goroutine metric.
   */
  datatype Work = Work(count: nat, done: nat, closed: set<nat>, gauge: int)

  datatype Core = Core(
    phase: Phase,
    listening: bool,
    work: Work,
    peers: map<Addr, Conn>,
    connections: set<Conn>,
    activePeers: int
  )

  const NewCore := Core(Open, false, Work(0, 0, {0}, 0), map[], {}, 0)

  /** startWorkLocked in the open phase */
  function Started(k: Work): Work {
    Work(k.count + 1, if k.count == 0 then k.done + 1 else k.done, k.closed, k.gauge + 1)
  }

  /** finishWork */
  function Finished(k: Work): Work {
    if k.count == 0 then k
    else Work(k.count - 1, k.done, if k.count == 1 then k.closed + {k.done} else k.closed, k.gauge - 1)
  }

  datatype Admission = Admitted | TransportClosed | Duplicate | Rejected

  /** handlePeer's decision for a connection. */
  function AdmissionOf(c: Core, maxPeers: int, conn: Conn): Admission {
    if !c.phase.Open? then TransportClosed
    else if conn.addr in c.peers then Duplicate
    else if maxPeers > 0 && |c.peers| >= maxPeers then Rejected
    else Admitted
  }

  function Register(c: Core, conn: Conn): Core {
    c.(work := Started(c.work), peers := c.peers[conn.addr := conn], activePeers := c.activePeers + 1)
  }

  /** The part of unregisterPeer that holds the mutex first. */
  function Unregister(c: Core, conn: Conn): Core {
    if conn.addr !in c.peers then c
    else c.(peers := c.peers - {conn.addr}, activePeers := c.activePeers - 1)
  }

  function BeginShutdown(c: Core): Core {
    c.(phase := Draining, listening := false)
  }

  predicate Registered(c: Core, conn: Conn) {
    conn.addr in c.peers && c.peers[conn.addr] == conn
  }

  /** The transport object; each method is one critical section, except UnregisterPeer, which is two. */
  class TCPTransport {
    const maxPeers: int
    var phase: Phase
    var listening: bool
    var workCount: nat
    var workDone: nat
    var closed: set<nat>
    var peers: map<Addr, Conn>
    var connections: set<Conn>
    var activePeers: int
    var trackedWork: int

    ghost function State(): Core
      reads this
    {
      Core(phase, listening, Work(workCount, workDone, closed, trackedWork), peers, connections, activePeers)
    }

    constructor (maxPeers: int)
      ensures State() == NewCore && this.maxPeers == maxPeers
    {
      this.maxPeers := maxPeers;
      phase, listening, workCount, workDone, closed := Open, false, 0, 0, {0};
      peers, connections, activePeers, trackedWork := map[], {}, 0, 0;
    }

    method BeginWork() returns (ok: bool)
      modifies this
      ensures ok == old(phase).Open?
      ensures State() == if ok then old(State()).(work := Started(old(State()).work)) else old(State())
      ensures ok ==> workCount == old(workCount) + 1 && trackedWork == old(trackedWork) + 1 && closed == old(closed)
      ensures ok ==> workDone == if old(workCount) == 0 then old(workDone) + 1 else old(workDone)
    {
      if !phase.Open? {
        return false;
      }
      if workCount == 0 {
        workDone := workDone + 1;
      }
      workCount := workCount + 1;
      trackedWork := trackedWork + 1;
      ok := true;
    }

    /** The channel is open whenever this closes it. */
    method EndWork()
      requires workCount > 0 ==> workDone !in closed
      modifies this
      ensures State() == old(State()).(work := Finished(old(State()).work))
      ensures old(workCount) > 0 ==>
                && workCount == old(workCount) - 1 && trackedWork == old(trackedWork) - 1 && workDone == old(workDone)
                && closed == if workCount == 0 then old(closed) + {workDone} else old(closed)
    {
      if workCount == 0 {
        return;
      }
      workCount := workCount - 1;
      trackedWork := trackedWork - 1;
      if workCount == 0 {
        closed := closed + {workDone};
      }
    }

    method TrackConnection(conn: Conn) returns (ok: bool)
      modifies this
      ensures ok == old(phase).Open?
      ensures State() == if ok then old(State()).(connections := old(connections) + {conn}) else old(State())
    {
      if !phase.Open? {
        return false;
      }
      connections := connections + {conn};
      ok := true;
    }

    method RemoveConnection(conn: Conn)
      modifies this
      ensures State() == old(State()).(connections := old(connections) - {conn})
    {
      connections := connections - {conn};
    }

    method HandlePeer(conn: Conn) returns (outcome: Admission)
      modifies this
      ensures outcome == AdmissionOf(old(State()), maxPeers, conn)
      ensures outcome.TransportClosed? <==> !old(phase).Open?
      ensures outcome.Duplicate? <==> old(phase).Open? && conn.addr in old(peers)
      ensures outcome.Rejected? <==> old(phase).Open? && conn.addr !in old(peers) && maxPeers > 0 && |old(peers)| >= maxPeers
      ensures outcome.Admitted? <==> old(phase).Open? && conn.addr !in old(peers) && (maxPeers > 0 ==> |old(peers)| < maxPeers)
      ensures State() == if outcome.Admitted? then Register(old(State()), conn) else old(State())
      ensures outcome.Admitted? ==>
                && peers == old(peers)[conn.addr := conn] && activePeers == old(activePeers) + 1
                && workCount == old(workCount) + 1 && trackedWork == old(trackedWork) + 1 && workDone >= old(workDone)
                && (old(workCount) == 0 <==> workDone == old(workDone) + 1) && closed == old(closed)
                && connections == old(connections) && phase == old(phase)
    {
      if !phase.Open? {
        return TransportClosed;
      }
      if conn.addr in peers {
        return Duplicate;
      }
      if maxPeers > 0 && |peers| >= maxPeers {
        return Rejected;
      }
      var started := BeginWork();
      peers := peers[conn.addr := conn];
      activePeers := activePeers + 1;
      outcome := Admitted;
    }

    /** unregisterPeer: its two critical sections, the ServeExit and Untrack steps below, one after the other. */
    method UnregisterPeer(conn: Conn)
      modifies this
      ensures State() == Unregister(old(State()), conn).(connections := old(connections) - {conn})
      ensures conn.addr !in peers && conn !in connections
      ensures forall a :: a in old(peers) && a != conn.addr ==> a in peers && peers[a] == old(peers)[a]
      ensures peers.Keys <= old(peers).Keys && activePeers == old(activePeers) - (if conn.addr in old(peers) then 1 else 0)
    {
      if conn.addr in peers {
        peers := peers - {conn.addr};
        activePeers := activePeers - 1;
      }
      RemoveConnection(conn);
    }

    /** beginShutdown: splits the tracked connections into registered and pending ones. */
    method Shutdown() returns (pending: set<Conn>, active: set<Conn>)
      modifies this
      ensures State() == BeginShutdown(old(State()))
      ensures pending + active == connections && pending !! active
      ensures forall c :: c in active ==> Registered(State(), c)
      ensures forall c :: c in pending ==> !Registered(State(), c)
    {
      phase, listening := Draining, false;
      pending, active := {}, {};
      var rest := connections;
      while rest != {}
        invariant rest <= connections && pending + active == connections - rest && pending !! active
        invariant forall c :: c in active ==> Registered(State(), c)
        invariant forall c :: c in pending ==> !Registered(State(), c)
        invariant State() == BeginShutdown(old(State()))
      {
        var c :| c in rest;
        if c.addr in peers && peers[c.addr] == c {
          active := active + {c};
        } else {
          pending := pending + {c};
        }
        rest := rest - {c};
      }
    }
  }

  // ---- every interleaving ----

  /** What a tracked goroutine still has to do. */
  datatype Task =
    | Accepting             // the accept loop
    | Dialing               // a dial without a connection yet
    | Joining(conn: Conn)   // handshake, then handlePeer
    | Serving(conn: Conn)   // peerServe of a registered peer
    | Dropping(conn: Conn)  // about to remove its connection
    | Leaving               // about to finish its work

  predicate Owns(t: Task, c: Conn) {
    (t.Joining? || t.Serving? || t.Dropping?) && t.conn == c
  }

  /** waiting is the channel a drain waits on; drained that its wait succeeded. */
  datatype World = World(core: Core, tasks: map<nat, Task>, nextTask: nat, nextConn: nat, waiting: Option<nat>, drained: bool)

  const NewWorld := World(NewCore, map[], 0, 0, None, false)

  datatype Step =
    | Listen
    | Accept(task: nat, addr: Addr)
    | Dial
    | Connected(task: nat, addr: Addr)
    | DialFailed(task: nat)
    | Admit(task: nat)
    | HandshakeFailed(task: nat)
    | ServeExit(task: nat)
    | Untrack(task: nat)
    | Finish(task: nat)
    | Stop
    | WaitBegin
    | WaitDone
    | MarkClosed

  function Spawn(w: World, t: Task): World {
    w.(tasks := w.tasks[w.nextTask := t], nextTask := w.nextTask + 1)
  }

  function Become(w: World, id: nat, t: Task): World {
    w.(tasks := w.tasks[id := t])
  }

  /** A step that is not enabled leaves the world alone. */
  function After(maxPeers: int, w: World, s: Step): World {
    match s
    case Listen =>
      if w.core.phase.Open? && !w.core.listening then
        Spawn(w.(core := w.core.(work := Started(w.core.work), listening := true)), Accepting)
      else w
    case Accept(id, addr) =>
      if id in w.tasks && w.tasks[id].Accepting? && w.core.phase.Open? then
        var conn := Conn(w.nextConn, addr);
        var core := w.core.(work := Started(w.core.work), connections := w.core.connections + {conn});
        Spawn(w.(core := core, nextConn := w.nextConn + 1), Joining(conn))
      else w
    case Dial => if w.core.phase.Open? then Spawn(w.(core := w.core.(work := Started(w.core.work))), Dialing) else w
    case Connected(id, addr) =>
      if !(id in w.tasks && w.tasks[id].Dialing?) then w
      else if !w.core.phase.Open? then Become(w, id, Leaving)
      else
        var conn := Conn(w.nextConn, addr);
        Become(w.(core := w.core.(connections := w.core.connections + {conn}), nextConn := w.nextConn + 1), id, Joining(conn))
    case DialFailed(id) => if id in w.tasks && w.tasks[id].Dialing? then Become(w, id, Leaving) else w
    case Admit(id) =>
      if !(id in w.tasks && w.tasks[id].Joining?) then w
      else
        var conn := w.tasks[id].conn;
        if AdmissionOf(w.core, maxPeers, conn).Admitted? then
          Spawn(Become(w.(core := Register(w.core, conn)), id, Leaving), Serving(conn))
        else Become(w, id, Dropping(conn))
    case HandshakeFailed(id) =>
      if id in w.tasks && w.tasks[id].Joining? then Become(w, id, Dropping(w.tasks[id].conn)) else w
    case ServeExit(id) =>
      if id in w.tasks && w.tasks[id].Serving? then
        Become(w.(core := Unregister(w.core, w.tasks[id].conn)), id, Dropping(w.tasks[id].conn))
      else w
    case Untrack(id) =>
      if id in w.tasks && w.tasks[id].Dropping? then
        Become(w.(core := w.core.(connections := w.core.connections - {w.tasks[id].conn})), id, Leaving)
      else w
    case Finish(id) =>
      if id in w.tasks && (w.tasks[id].Leaving? || w.tasks[id].Accepting?) then
        w.(core := w.core.(work := Finished(w.core.work)), tasks := w.tasks - {id})
      else w
    case Stop => if w.core.phase.Open? then w.(core := BeginShutdown(w.core)) else w
    case WaitBegin => if w.core.phase.Draining? then w.(waiting := Some(w.core.work.done)) else w
    case WaitDone => if w.waiting.Some? && w.waiting.value in w.core.work.closed then w.(drained := true) else w
    case MarkClosed => if w.core.phase.Draining? then w.(core := w.core.(phase := Closed)) else w
  }

  /**
   * When a joining connection is admitted: in the open phase, under an address that no peer has, within the limit if there
   * is one. Then exactly that peer is added, with a task to serve it; otherwise no peer changes and the connection is dropped.
   */
  lemma AdmitExactly(maxPeers: int, w: World, id: nat)
    requires id in w.tasks && w.tasks[id].Joining? && w.nextTask !in w.tasks
    ensures var conn, t := w.tasks[id].conn, After(maxPeers, w, Admit(id));
            if w.core.phase.Open? && conn.addr !in w.core.peers && (maxPeers > 0 ==> |w.core.peers| < maxPeers) then
              && t.core.peers == w.core.peers[conn.addr := conn] && t.core.activePeers == w.core.activePeers + 1
              && t.core.work.count == w.core.work.count + 1 && t.core.connections == w.core.connections
              && t.tasks == w.tasks[id := Leaving][w.nextTask := Serving(conn)]
            else t.core == w.core && t.tasks == w.tasks[id := Dropping(conn)]
  {
  }

  /**
   * The other steps of a connection's life: accepting or dialling one in the open phase tracks it under a new identity and
   * lets it join; the end of its service removes its peer, then the connection, then its work.
   */
  lemma TaskSteps(maxPeers: int, w: World, id: nat, addr: Addr)
    requires id in w.tasks && w.nextTask !in w.tasks
    ensures var conn := Conn(w.nextConn, addr);
            && (w.core.phase.Open? && w.tasks[id].Accepting? ==>
                  var t := After(maxPeers, w, Accept(id, addr));
                  && t.core == w.core.(work := t.core.work, connections := w.core.connections + {conn})
                  && t.core.work.count == w.core.work.count + 1 && t.tasks == w.tasks[w.nextTask := Joining(conn)])
            && (w.core.phase.Open? && w.tasks[id].Dialing? ==>
                  var t := After(maxPeers, w, Connected(id, addr));
                  && t.core == w.core.(connections := w.core.connections + {conn}) && t.tasks == w.tasks[id := Joining(conn)])
    ensures w.tasks[id].Serving? ==>
              var conn, t := w.tasks[id].conn, After(maxPeers, w, ServeExit(id));
              && t.core.peers == w.core.peers - {conn.addr} && t.core.connections == w.core.connections
              && t.tasks == w.tasks[id := Dropping(conn)]
    ensures w.tasks[id].Dropping? ==>
              var t := After(maxPeers, w, Untrack(id));
              t.core == w.core.(connections := w.core.connections - {w.tasks[id].conn}) && t.tasks == w.tasks[id := Leaving]
    ensures w.tasks[id].Leaving? && w.core.work.count > 0 ==>
              var t := After(maxPeers, w, Finish(id));
              t.core == w.core.(work := t.core.work) && t.core.work.count == w.core.work.count - 1 && t.tasks == w.tasks - {id}
  {
  }

  /**
   * The steps of the transport itself: listening and dialling start work in the open phase; stopping ends the open phase
   * once; a drain waits for the channel of the moment, succeeds when that one is closed, and closes the transport.
   */
  lemma TransportSteps(maxPeers: int, w: World)
    requires w.nextTask !in w.tasks
    ensures w.core.phase.Open? && !w.core.listening ==>
              var t := After(maxPeers, w, Listen);
              t.core.listening && t.core.work.count == w.core.work.count + 1 && t.tasks == w.tasks[w.nextTask := Accepting]
    ensures w.core.phase.Open? ==>
              var t := After(maxPeers, w, Dial);
              t.core.work.count == w.core.work.count + 1 && t.tasks == w.tasks[w.nextTask := Dialing]
    ensures var t := After(maxPeers, w, Stop);
            if w.core.phase.Open? then t == w.(core := w.core.(phase := Draining, listening := false)) else t == w
    ensures w.core.phase.Draining? ==>
              && After(maxPeers, w, WaitBegin) == w.(waiting := Some(w.core.work.done))
              && After(maxPeers, w, MarkClosed) == w.(core := w.core.(phase := Closed))
    ensures After(maxPeers, w, WaitDone) ==
            w.(drained := w.drained || (w.waiting.Some? && w.waiting.value in w.core.work.closed))
  {
  }

  function Run(maxPeers: int, w: World, steps: seq<Step>): World {
    if steps == [] then w else After(maxPeers, Run(maxPeers, w, steps[..|steps| - 1]), steps[|steps| - 1])
  }

  // ---- the invariant ----

  /** The count is the live tasks, and the done channel is closed exactly when there are none. */
  ghost predicate WorkTracked(w: World) {
    Counted(w.core.work, w.tasks.Keys, w.nextTask)
  }

  ghost predicate Counted(k: Work, live: set<nat>, next: nat) {
    && k.count == |live| == k.gauge
    && (k.done in k.closed <==> k.count == 0)
    && (forall ch :: ch in k.closed ==> ch <= k.done)
    && (forall id :: id in live ==> id < next)
  }

  /** The gauge is the number of peers, within the limit, and each peer is served by its own task. */
  ghost predicate PeersTracked(maxPeers: int, w: World) {
    && w.core.activePeers == |w.core.peers| && (maxPeers > 0 ==> |w.core.peers| <= maxPeers)
    && Served(w.tasks, w.core.peers)
  }

  ghost predicate Served(tasks: map<nat, Task>, peers: map<Addr, Conn>) {
    && (forall a :: a in peers ==> peers[a].addr == a && exists id :: id in tasks && tasks[id] == Serving(peers[a]))
    && (forall id :: id in tasks && tasks[id].Serving? ==> var c := tasks[id].conn; c.addr in peers && peers[c.addr] == c)
    && (forall i, j :: i in tasks && j in tasks && tasks[i].Serving? && tasks[i] == tasks[j] ==> i == j)
  }

  /** The tracked connections are those a live task owns, each owned once. */
  ghost predicate ConnectionsTracked(w: World) {
    Owned(w.tasks, w.core.connections, w.nextConn)
  }

  ghost predicate Owned(tasks: map<nat, Task>, connections: set<Conn>, nextConn: nat) {
    && (forall c :: c in connections ==> exists id :: id in tasks && Owns(tasks[id], c))
    && (forall id, c :: id in tasks && Owns(tasks[id], c) ==> c in connections && c.id < nextConn)
    && (forall i, j, c :: i in tasks && j in tasks && Owns(tasks[i], c) && Owns(tasks[j], c) ==> i == j)
  }

  /** A drain waits on the last channel, after admissions have stopped. */
  ghost predicate WaitTracked(w: World) {
    && (w.core.listening ==> w.core.phase.Open?)
    && (w.waiting.Some? ==> !w.core.phase.Open? && w.waiting.value == w.core.work.done)
    && (w.drained ==> !w.core.phase.Open? && w.core.work.done in w.core.work.closed)
  }

  ghost predicate Inv(maxPeers: int, w: World) {
    WorkTracked(w) && PeersTracked(maxPeers, w) && ConnectionsTracked(w) && WaitTracked(w)
  }

  lemma CountStart(k: Work, live: set<nat>, next: nat)
    requires Counted(k, live, next)
    ensures Counted(Started(k), live + {next}, next + 1)
  {
    assert next !in live;
  }

  lemma CountFinish(k: Work, live: set<nat>, next: nat, id: nat)
    requires Counted(k, live, next) && id in live
    ensures Counted(Finished(k), live - {id}, next)
  {
    assert live == (live - {id}) + {id};
  }

  lemma Spawned(w: World, t: Task)
    ensures Spawn(w, t).core == w.core && Spawn(w, t).nextTask == w.nextTask + 1
    ensures Spawn(w, t).tasks.Keys == w.tasks.Keys + {w.nextTask}
  {
  }

  lemma Became(w: World, id: nat, t: Task)
    requires id in w.tasks
    ensures Become(w, id, t).core == w.core && Become(w, id, t).nextTask == w.nextTask
    ensures Become(w, id, t).tasks.Keys == w.tasks.Keys
  {
  }

  /** A step starts one piece of work with one new task, finishes one with one task, or leaves both alone. */
  lemma WorkEffect(maxPeers: int, w: World, s: Step)
    ensures var w' := After(maxPeers, w, s);
            || (w'.core.work == w.core.work && w'.tasks.Keys == w.tasks.Keys && w'.nextTask == w.nextTask)
            || (w.core.phase.Open? && w'.core.work == Started(w.core.work)
                && w'.tasks.Keys == w.tasks.Keys + {w.nextTask} && w'.nextTask == w.nextTask + 1)
            || (s.Finish? && s.task in w.tasks && w'.core.work == Finished(w.core.work)
                && w'.tasks.Keys == w.tasks.Keys - {s.task} && w'.nextTask == w.nextTask)
  {
    hide Spawn, Become, Started, Finished;
    match s
    case Listen => Spawned(w.(core := w.core.(work := Started(w.core.work), listening := true)), Accepting);
    case Accept(_, addr) =>
      var conn := Conn(w.nextConn, addr);
      var core := w.core.(work := Started(w.core.work), connections := w.core.connections + {conn});
      Spawned(w.(core := core, nextConn := w.nextConn + 1), Joining(conn));
    case Dial => Spawned(w.(core := w.core.(work := Started(w.core.work))), Dialing);
    case Connected(id, addr) =>
      if id in w.tasks {
        var conn := Conn(w.nextConn, addr);
        Became(w, id, Leaving);
        Became(w.(core := w.core.(connections := w.core.connections + {conn}), nextConn := w.nextConn + 1), id, Joining(conn));
      }
    case DialFailed(id) => if id in w.tasks { Became(w, id, Leaving); }
    case Admit(id) =>
      if id in w.tasks && w.tasks[id].Joining? {
        var conn := w.tasks[id].conn;
        Became(w, id, Dropping(conn));
        Became(w.(core := Register(w.core, conn)), id, Leaving);
        Spawned(Become(w.(core := Register(w.core, conn)), id, Leaving), Serving(conn));
      }
    case HandshakeFailed(id) => if id in w.tasks && w.tasks[id].Joining? { Became(w, id, Dropping(w.tasks[id].conn)); }
    case ServeExit(id) =>
      if id in w.tasks && w.tasks[id].Serving? {
        Became(w.(core := Unregister(w.core, w.tasks[id].conn)), id, Dropping(w.tasks[id].conn));
      }
    case Untrack(id) =>
      if id in w.tasks && w.tasks[id].Dropping? {
        Became(w.(core := w.core.(connections := w.core.connections - {w.tasks[id].conn})), id, Leaving);
      }
    case Finish(id) => assert (w.tasks - {id}).Keys == w.tasks.Keys - {id};
    case Stop =>
    case WaitBegin =>
    case WaitDone =>
    case MarkClosed =>
  }

  lemma WorkStep(maxPeers: int, w: World, s: Step)
    requires WorkTracked(w)
    ensures WorkTracked(After(maxPeers, w, s))
  {
    hide Counted, Started, Finished, After;
    WorkEffect(maxPeers, w, s);
    CountStart(w.core.work, w.tasks.Keys, w.nextTask);
    if s.Finish? && s.task in w.tasks {
      CountFinish(w.core.work, w.tasks.Keys, w.nextTask, s.task);
    }
  }

  lemma WaitStep(maxPeers: int, w: World, s: Step)
    requires WaitTracked(w)
    ensures WaitTracked(After(maxPeers, w, s))
  {
  }

  // ---- connections ----

  lemma OwnedFrame(before: map<nat, Task>, after: map<nat, Task>, connections: set<Conn>, nextConn: nat)
    requires Owned(before, connections, nextConn)
    requires forall id, c :: (id in before && Owns(before[id], c)) <==> (id in after && Owns(after[id], c))
    ensures Owned(after, connections, nextConn)
  {
  }

  lemma OwnedFresh(tasks: map<nat, Task>, connections: set<Conn>, nextConn: nat, id: nat, conn: Conn)
    requires Owned(tasks, connections, nextConn) && conn.id == nextConn && (id in tasks ==> tasks[id].Dialing?)
    ensures Owned(tasks[id := Joining(conn)], connections + {conn}, nextConn + 1)
  {
    var after := tasks[id := Joining(conn)];
    assert Owns(after[id], conn);
    forall c | c in connections ensures exists i :: i in after && Owns(after[i], c) {
      var i :| i in tasks && Owns(tasks[i], c);
      assert i in after && Owns(after[i], c);
    }
  }

  lemma OwnedPassed(tasks: map<nat, Task>, connections: set<Conn>, nextConn: nat, id: nat, to: nat)
    requires Owned(tasks, connections, nextConn) && id in tasks && tasks[id].Joining? && to !in tasks
    ensures Owned(tasks[id := Leaving][to := Serving(tasks[id].conn)], connections, nextConn)
  {
    var conn := tasks[id].conn;
    var after := tasks[id := Leaving][to := Serving(conn)];
    assert Owns(tasks[id], conn) && Owns(after[to], conn);
    forall c | c in connections ensures exists i :: i in after && Owns(after[i], c) {
      var i :| i in tasks && Owns(tasks[i], c);
      if i != id {
        assert i in after && Owns(after[i], c);
      }
    }
  }

  lemma OwnedDropped(tasks: map<nat, Task>, connections: set<Conn>, nextConn: nat, id: nat)
    requires Owned(tasks, connections, nextConn) && id in tasks && tasks[id].Dropping?
    ensures Owned(tasks[id := Leaving], connections - {tasks[id].conn}, nextConn)
  {
    var conn, after := tasks[id].conn, tasks[id := Leaving];
    assert Owns(tasks[id], conn);
    forall c | c in connections - {conn} ensures exists i :: i in after && Owns(after[i], c) {
      var i :| i in tasks && Owns(tasks[i], c);
      assert i in after && Owns(after[i], c);
    }
  }

  lemma ConnectionsStep(maxPeers: int, w: World, s: Step)
    requires WorkTracked(w) && ConnectionsTracked(w)
    ensures ConnectionsTracked(After(maxPeers, w, s))
  {
    hide Owned, AdmissionOf, Started, Finished;
    var w' := After(maxPeers, w, s);
    assert w.nextTask !in w.tasks;
    match s
    case Accept(id, addr) => OwnedFresh(w.tasks, w.core.connections, w.nextConn, w.nextTask, Conn(w.nextConn, addr));
    case Connected(id, addr) =>
      if id in w.tasks && w.tasks[id].Dialing? && w.core.phase.Open? {
        OwnedFresh(w.tasks, w.core.connections, w.nextConn, id, Conn(w.nextConn, addr));
      } else {
        OwnedFrame(w.tasks, w'.tasks, w.core.connections, w.nextConn);
      }
    case Admit(id) =>
      if id in w.tasks && w.tasks[id].Joining? && AdmissionOf(w.core, maxPeers, w.tasks[id].conn).Admitted? {
        OwnedPassed(w.tasks, w.core.connections, w.nextConn, id, w.nextTask);
      } else {
        OwnedFrame(w.tasks, w'.tasks, w.core.connections, w.nextConn);
      }
    case Untrack(id) =>
      if id in w.tasks && w.tasks[id].Dropping? {
        OwnedDropped(w.tasks, w.core.connections, w.nextConn, id);
      }
    case ServeExit(id) =>
      OwnedFrame(w.tasks, w'.tasks, w.core.connections, w.nextConn);
    case Listen => OwnedFrame(w.tasks, w'.tasks, w.core.connections, w.nextConn);
    case Dial => OwnedFrame(w.tasks, w'.tasks, w.core.connections, w.nextConn);
    case DialFailed(_) => OwnedFrame(w.tasks, w'.tasks, w.core.connections, w.nextConn);
    case HandshakeFailed(_) => OwnedFrame(w.tasks, w'.tasks, w.core.connections, w.nextConn);
    case Finish(_) => OwnedFrame(w.tasks, w'.tasks, w.core.connections, w.nextConn);
    case Stop =>
    case WaitBegin =>
    case WaitDone =>
    case MarkClosed =>
  }

  // ---- peers ----

  lemma ServedFrame(before: map<nat, Task>, after: map<nat, Task>, peers: map<Addr, Conn>)
    requires Served(before, peers)
    requires forall id, c :: (id in before && before[id] == Serving(c)) <==> (id in after && after[id] == Serving(c))
    ensures Served(after, peers)
  {
  }

  lemma ServedMore(tasks: map<nat, Task>, peers: map<Addr, Conn>, id: nat, to: nat, conn: Conn)
    requires Served(tasks, peers) && id in tasks && tasks[id].Joining? && to !in tasks && conn.addr !in peers
    ensures Served(tasks[id := Leaving][to := Serving(conn)], peers[conn.addr := conn])
  {
    var after := tasks[id := Leaving][to := Serving(conn)];
    assert after[to] == Serving(conn);
    forall a | a in peers ensures exists i :: i in after && after[i] == Serving(peers[a]) {
      var i :| i in tasks && tasks[i] == Serving(peers[a]);
      assert i in after && after[i] == Serving(peers[a]);
    }
  }

  lemma ServedLess(tasks: map<nat, Task>, peers: map<Addr, Conn>, id: nat)
    requires Served(tasks, peers) && id in tasks && tasks[id].Serving?
    ensures tasks[id].conn.addr in peers
    ensures Served(tasks[id := Dropping(tasks[id].conn)], peers - {tasks[id].conn.addr})
  {
    var conn := tasks[id].conn;
    var after, left := tasks[id := Dropping(conn)], peers - {conn.addr};
    forall a | a in left ensures exists i :: i in after && after[i] == Serving(left[a]) {
      var i :| i in tasks && tasks[i] == Serving(peers[a]);
      assert i in after && after[i] == Serving(left[a]);
    }
  }

  lemma PeersAdmit(maxPeers: int, w: World, id: nat)
    requires WorkTracked(w) && PeersTracked(maxPeers, w) && id in w.tasks && w.tasks[id].Joining?
    requires AdmissionOf(w.core, maxPeers, w.tasks[id].conn).Admitted?
    ensures PeersTracked(maxPeers, After(maxPeers, w, Admit(id)))
  {
    hide Served, Started;
    var conn := w.tasks[id].conn;
    assert w.nextTask !in w.tasks;
    ServedMore(w.tasks, w.core.peers, id, w.nextTask, conn);
    assert w.core.peers[conn.addr := conn].Keys == w.core.peers.Keys + {conn.addr};
  }

  lemma PeersExit(maxPeers: int, w: World, id: nat)
    requires PeersTracked(maxPeers, w) && id in w.tasks && w.tasks[id].Serving?
    ensures PeersTracked(maxPeers, After(maxPeers, w, ServeExit(id)))
  {
    hide Served;
    var addr := w.tasks[id].conn.addr;
    ServedLess(w.tasks, w.core.peers, id);
    assert (w.core.peers - {addr}).Keys == w.core.peers.Keys - {addr};
    assert w.core.peers.Keys == (w.core.peers.Keys - {addr}) + {addr};
  }

  lemma PeersStep(maxPeers: int, w: World, s: Step)
    requires WorkTracked(w) && PeersTracked(maxPeers, w)
    ensures PeersTracked(maxPeers, After(maxPeers, w, s))
  {
    hide Served, Started, Finished, AdmissionOf, Register, Unregister, Counted;
    var w' := After(maxPeers, w, s);
    assert w.nextTask !in w.tasks by {
      Unused(w);
    }
    if s.Admit? && s.task in w.tasks && w.tasks[s.task].Joining? && AdmissionOf(w.core, maxPeers, w.tasks[s.task].conn).Admitted? {
      PeersAdmit(maxPeers, w, s.task);
    } else if s.ServeExit? && s.task in w.tasks && w.tasks[s.task].Serving? {
      PeersExit(maxPeers, w, s.task);
    } else {
      assert w'.core.peers == w.core.peers && w'.core.activePeers == w.core.activePeers;
      ServedFrame(w.tasks, w'.tasks, w.core.peers);
    }
  }

  lemma Unused(w: World)
    requires WorkTracked(w)
    ensures w.nextTask !in w.tasks
  {
  }

  // ---- over all runs ----

  lemma {:induction false} InvHolds(maxPeers: int, steps: seq<Step>)
    ensures Inv(maxPeers, Run(maxPeers, NewWorld, steps))
  {
    hide After, WorkTracked, PeersTracked, ConnectionsTracked, WaitTracked;
    if steps == [] {
      InvStarts(maxPeers);
    } else {
      var w, s := Run(maxPeers, NewWorld, steps[..|steps| - 1]), steps[|steps| - 1];
      InvHolds(maxPeers, steps[..|steps| - 1]);
      WorkStep(maxPeers, w, s);
      PeersStep(maxPeers, w, s);
      ConnectionsStep(maxPeers, w, s);
      WaitStep(maxPeers, w, s);
    }
  }

  lemma InvStarts(maxPeers: int)
    ensures Inv(maxPeers, NewWorld)
  {
  }

  /**
   * In every interleaving the work count is the number of live tasks, the done channel is closed exactly at
   * zero, the peer gauge is the number of peers and within the limit, and every peer and tracked
   * connection has its task.
   */
  lemma Tracking(maxPeers: int, steps: seq<Step>)
    ensures var w := Run(maxPeers, NewWorld, steps);
            && w.core.work.count == |w.tasks| && w.core.work.gauge == |w.tasks|
            && (w.core.work.done in w.core.work.closed <==> w.tasks == map[])
            && w.core.activePeers == |w.core.peers| && (maxPeers > 0 ==> |w.core.peers| <= maxPeers)
            && (forall a :: a in w.core.peers ==> exists id :: id in w.tasks && w.tasks[id] == Serving(w.core.peers[a]))
            && (forall c :: c in w.core.connections ==> exists id :: id in w.tasks && Owns(w.tasks[id], c))
  {
    hide Run;
    InvHolds(maxPeers, steps);
    var w := Run(maxPeers, NewWorld, steps);
    assert |w.tasks| == |w.tasks.Keys|;
    assert w.tasks == map[] <==> w.tasks.Keys == {};
  }

  /** After shutdown has begun no step adds a task, a peer or a connection, or makes a channel. */
  lemma NothingAdded(maxPeers: int, w: World, s: Step)
    requires !w.core.phase.Open?
    ensures var w' := After(maxPeers, w, s);
            && !w'.core.phase.Open? && w'.tasks.Keys <= w.tasks.Keys && w'.core.work.done == w.core.work.done
            && w'.core.peers.Keys <= w.core.peers.Keys && w'.core.connections <= w.core.connections
            && w.core.work.closed <= w'.core.work.closed && (w.drained ==> w'.drained)
  {
  }

  lemma {:induction false} ShutdownOnlyShrinks(maxPeers: int, w: World, steps: seq<Step>)
    requires !w.core.phase.Open?
    ensures var w' := Run(maxPeers, w, steps);
            && !w'.core.phase.Open? && w'.tasks.Keys <= w.tasks.Keys && w'.core.work.done == w.core.work.done
            && w'.core.peers.Keys <= w.core.peers.Keys && w'.core.connections <= w.core.connections
            && w.core.work.closed <= w'.core.work.closed && (w.drained ==> w'.drained)
  {
    hide After;
    if steps != [] {
      ShutdownOnlyShrinks(maxPeers, w, steps[..|steps| - 1]);
      NothingAdded(maxPeers, Run(maxPeers, w, steps[..|steps| - 1]), steps[|steps| - 1]);
    }
  }

  ghost predicate Quiet(w: World) {
    w.tasks == map[] && w.core.work.count == 0 && w.core.peers == map[] && w.core.connections == {}
  }

  /** Once a drain's wait has succeeded there is no work, no peer and no connection, then and ever after. */
  lemma DrainedForever(maxPeers: int, before: seq<Step>, after: seq<Step>)
    requires Run(maxPeers, NewWorld, before).drained
    ensures Quiet(Run(maxPeers, NewWorld, before))
    ensures Quiet(Run(maxPeers, Run(maxPeers, NewWorld, before), after))
  {
    hide Run;
    InvHolds(maxPeers, before);
    Tracking(maxPeers, before);
    var w := Run(maxPeers, NewWorld, before);
    ShutdownOnlyShrinks(maxPeers, w, after);
    RunJoin(maxPeers, NewWorld, before, after);
    Tracking(maxPeers, before + after);
  }

  lemma {:induction false} RunJoin(maxPeers: int, w: World, a: seq<Step>, b: seq<Step>)
    ensures Run(maxPeers, w, a + b) == Run(maxPeers, Run(maxPeers, w, a), b)
  {
    hide After;
    if b == [] {
      assert a + b == a;
    } else {
      RunJoin(maxPeers, w, a, b[..|b| - 1]);
      assert (a + b)[..|a + b| - 1] == a + b[..|b| - 1];
    }
  }

  /** A wait that has begun succeeds exactly when no task is live. */
  lemma WaitExactly(maxPeers: int, steps: seq<Step>)
    ensures var w := Run(maxPeers, NewWorld, steps);
            w.waiting.Some? ==> (After(maxPeers, w, WaitDone).drained <==> w.tasks == map[])
  {
    hide Run;
    InvHolds(maxPeers, steps);
    Tracking(maxPeers, steps);
  }

  // ---- a drain can always finish ----

  /** The steps a task still takes once admissions have stopped and its connection is closed. */
  function LastSteps(id: nat, t: Task): seq<Step> {
    match t
    case Accepting => [Finish(id)]
    case Dialing => [DialFailed(id), Finish(id)]
    case Joining(_) => [HandshakeFailed(id), Untrack(id), Finish(id)]
    case Serving(_) => [ServeExit(id), Untrack(id), Finish(id)]
    case Dropping(_) => [Untrack(id), Finish(id)]
    case Leaving => [Finish(id)]
  }

  function RunOn(maxPeers: int, w: World, steps: seq<Step>): World
    decreases steps
  {
    if steps == [] then w else RunOn(maxPeers, After(maxPeers, w, steps[0]), steps[1..])
  }

  lemma {:induction false} RunOnIsRun(maxPeers: int, w: World, steps: seq<Step>)
    ensures RunOn(maxPeers, w, steps) == Run(maxPeers, w, steps)
    decreases steps
  {
    hide After;
    if steps != [] {
      RunOnIsRun(maxPeers, After(maxPeers, w, steps[0]), steps[1..]);
      assert Run(maxPeers, w, []) == w;
      assert [steps[0]][..0] == [];
      RunJoin(maxPeers, w, [steps[0]], steps[1..]);
      assert steps == [steps[0]] + steps[1..];
    }
  }

  lemma {:induction false} TaskEnds(maxPeers: int, w: World, id: nat)
    requires id in w.tasks
    ensures var w' := RunOn(maxPeers, w, LastSteps(id, w.tasks[id]));
            w'.tasks == w.tasks - {id} && w'.core.phase == w.core.phase
    decreases |LastSteps(id, w.tasks[id])|
  {
    hide Finished;
    var steps := LastSteps(id, w.tasks[id]);
    var first := After(maxPeers, w, steps[0]);
    if |steps| > 1 {
      assert first.tasks == w.tasks[id := first.tasks[id]];
      assert steps[1..] == LastSteps(id, first.tasks[id]);
      TaskEnds(maxPeers, first, id);
      assert first.tasks - {id} == w.tasks - {id};
    } else {
      assert steps[1..] == [];
    }
  }

  /** Every live task can run to its end, one after another. */
  lemma {:induction false} AllEnd(maxPeers: int, w: World) returns (steps: seq<Step>)
    ensures Run(maxPeers, w, steps).tasks == map[] && Run(maxPeers, w, steps).core.phase == w.core.phase
    decreases |w.tasks|
  {
    hide After, LastSteps;
    if w.tasks == map[] {
      return [];
    }
    var id :| id in w.tasks;
    var first := LastSteps(id, w.tasks[id]);
    TaskEnds(maxPeers, w, id);
    RunOnIsRun(maxPeers, w, first);
    assert (w.tasks - {id}).Keys == w.tasks.Keys - {id};
    var rest := AllEnd(maxPeers, Run(maxPeers, w, first));
    RunJoin(maxPeers, w, first, rest);
    steps := first + rest;
  }

  /** From every reachable state of a drain some continuation lets its wait succeed. */
  lemma DrainCanFinish(maxPeers: int, before: seq<Step>)
    requires Run(maxPeers, NewWorld, before).core.phase.Draining?
    ensures exists steps :: Run(maxPeers, Run(maxPeers, NewWorld, before), steps).drained
  {
    hide Run;
    var w := Run(maxPeers, NewWorld, before);
    var ends := AllEnd(maxPeers, w);
    RunJoin(maxPeers, NewWorld, before, ends);
    var waiting := before + ends + [WaitBegin];
    RunStep(maxPeers, NewWorld, before + ends, WaitBegin);
    WaitExactly(maxPeers, waiting);
    RunStep(maxPeers, NewWorld, waiting, WaitDone);
    RunJoin(maxPeers, NewWorld, before, ends + [WaitBegin, WaitDone]);
    assert waiting + [WaitDone] == before + (ends + [WaitBegin, WaitDone]);
  }

  lemma RunStep(maxPeers: int, w: World, steps: seq<Step>, s: Step)
    ensures Run(maxPeers, w, steps + [s]) == After(maxPeers, Run(maxPeers, w, steps), s)
  {
    hide After;
    assert (steps + [s])[..|steps|] == steps;
  }
}
