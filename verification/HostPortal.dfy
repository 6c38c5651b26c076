/** The host portal (hportal.c): one central thread, and per connection a send thread and a receive
    thread, joined by FIFO queues.

    Ops are routed to a host's pending list, dispatched to one of its connections, sent, answered and
    completed, or handed back for another try. Connections are opened and closed as the workload
    changes. The model is a transition system: each step is one action of one thread. A thread's get
    from a queue and the put it leads to are one step, except that an op stays in a thread's hand
    while it is being sent or answered. */
module HostPortal {

  datatype Option<+T> = None | Some(value: T)

  datatype Op = Op(id: nat, host: nat, work: nat, retries: int)

  /** Messages on the central queue. `Closed` carries the host whose need for a connection caused the
      close, if any. */
  datatype Msg =
    | Gop(op: Op)
    | Ready(c: nat)
    | CloseReq(c: nat)
    | Closed(c: nat, req: Option<nat>)
    | Retry(c: nat, op: Op)
    | Done(c: nat, work: nat)

  /** Messages from the central thread to a connection, and from its send to its receive thread. */
  datatype In = Submit(op: Op) | Close(req: Option<nat>)
  datatype Internal = Connected | Task(op: Op, ok: bool) | Shut(req: Option<nat>)

  datatype Send = Connecting | SLoop | SHand(op: Op) | SAsk | SDrain | SDone
  datatype Recv = RWait | RLoop | RHand(op: Op) | RAsk | RDrain | RDone

  /** A connection. `state` is 0 while starting, 1 when ready, 2 when closing. A connection leaves its
      host's list by `open` turning false; `req` remembers who asked for the close. */
  datatype Conn = Conn(host: nat, state: int, open: bool, incoming: seq<In>, internal: seq<Internal>,
                       send: Send, recv: Recv, ntasks: int, workload: int, req: Option<nat>)

  /** A host. The bottom of its pending stack is the last element. */
  datatype Host = Host(pending: seq<Op>, workPending: int, executing: int, submitted: int,
                       processed: int, retried: int, limbo: int, pendingConn: int, stable: int,
                       dead: bool)

  datatype Limits = Limits(maxTotal: nat, maxConn: nat, maxWork: nat)

  datatype State = State(hosts: seq<Host>, conns: seq<Conn>, que: seq<Msg>, running: int,
                         pendingTotal: int, hpRunning: int, completed: seq<nat>, issued: seq<nat>)

  predicate LimitsOk(lim: Limits) {
    lim.maxTotal >= 1 && lim.maxConn >= 1 && lim.maxWork >= 1
  }

  function NewHost(lim: Limits): (h: Host) {
    Host([], 0, 0, 0, 0, 0, 0, 0, lim.maxConn, false)
  }

  function NewConn(h: nat): (c: Conn) {
    Conn(h, 0, true, [], [], Connecting, RWait, 0, 0, None)
  }

  function Init(lim: Limits, nhosts: nat): (s: State) {
    State(seq(nhosts, _ => NewHost(lim)), [], [], 0, 0, 0, [], [])
  }

  // ---------------------------------------------------------------- the two connection threads

  datatype Event =
    | ConnectOk | ConnectFail | STake | SSent(ok: bool) | SIdle | SRequest | SClose | SReturn
    | RReady | RAbort | RTake | RReject | RAnswered(ok: bool) | RRetry | RRequest | RReturn | RClose

  /** What a thread step does: the new connection, the messages sent to the central queue and the ids
      of the ops completed. */
  datatype Effect = Effect(conn: Conn, out: seq<Msg>, done: seq<nat>)

  /** `hp_gop_retry` */
  function Bounce(c: Conn, k: nat, op: Op, count: int): (e: Effect) {
    var op' := op.(retries := op.retries + count);
    if op'.retries <= 0 then Effect(c, [Done(k, op.work)], [op.id])
    else Effect(c, [Retry(k, op')], [])
  }

  predicate CanDo(c: Conn, e: Event) {
    match e
    case ConnectOk => c.send == Connecting
    case ConnectFail => c.send == Connecting
    case STake => c.send == SLoop && c.incoming != [] && c.incoming[0].Submit?
    case SSent(_) => c.send.SHand?
    case SIdle => c.send == SLoop
    case SRequest => c.send == SAsk
    case SClose => (c.send == SLoop || c.send == SDrain) && c.incoming != [] && c.incoming[0].Close?
    case SReturn => c.send == SDrain && c.incoming != [] && c.incoming[0].Submit?
    case RReady => c.recv == RWait && c.internal != [] && c.internal[0].Connected?
    case RAbort => c.recv == RWait && c.internal != [] && c.internal[0].Shut?
    case RTake => c.recv == RLoop && c.internal != [] && c.internal[0].Task? && c.internal[0].ok
    case RReject => c.recv == RLoop && c.internal != [] && c.internal[0].Task? && !c.internal[0].ok
    case RAnswered(_) => c.recv.RHand?
    case RRetry => c.recv.RHand?
    case RRequest => c.recv == RAsk
    case RReturn => c.recv == RDrain && c.internal != [] && c.internal[0].Task?
    case RClose => (c.recv == RLoop || c.recv == RDrain) && c.internal != [] && c.internal[0].Shut?
  }

  /** One step of `hc_send_thread` or `hc_recv_thread` of connection `k`. */
  function Do(c: Conn, k: nat, e: Event): (r: Effect)
    requires CanDo(c, e)
  {
    match e
    case ConnectOk => Effect(c.(send := SLoop, internal := c.internal + [Connected]), [], [])
    case ConnectFail => Effect(c.(send := SDone, internal := c.internal + [Shut(None)]), [], [])
    case STake => Effect(c.(send := SHand(c.incoming[0].op), incoming := c.incoming[1..]), [], [])
    case SSent(ok) =>
      Effect(c.(send := if ok then SLoop else SAsk, internal := c.internal + [Task(c.send.op, ok)]), [], [])
    case SIdle => Effect(c.(send := SAsk), [], [])
    case SRequest => Effect(c.(send := SDrain), [CloseReq(k)], [])
    case SClose =>
      Effect(c.(send := SDone, incoming := c.incoming[1..], internal := c.internal + [Shut(c.incoming[0].req)]), [], [])
    case SReturn => Bounce(c.(incoming := c.incoming[1..]), k, c.incoming[0].op, 0)
    case RReady => Effect(c.(recv := RLoop, internal := c.internal[1..]), [Ready(k)], [])
    case RAbort => Effect(c.(recv := RDone, internal := c.internal[1..]), [Closed(k, c.internal[0].req)], [])
    case RTake => Effect(c.(recv := RHand(c.internal[0].op), internal := c.internal[1..]), [], [])
    case RReject => Bounce(c.(recv := RDrain, internal := c.internal[1..]), k, c.internal[0].op, -1)
    case RAnswered(ok) =>
      Effect(c.(recv := if ok then RLoop else RAsk), [Done(k, c.recv.op.work)], [c.recv.op.id])
    case RRetry => Bounce(c.(recv := RAsk), k, c.recv.op, -1)
    case RRequest => Effect(c.(recv := RDrain), [CloseReq(k)], [])
    case RReturn => Bounce(c.(internal := c.internal[1..]), k, c.internal[0].op, 0)
    case RClose => Effect(c.(recv := RDone, internal := c.internal[1..]), [Closed(k, c.internal[0].req)], [])
  }

  // ---------------------------------------------------------------- the central thread

  function OpenCount(conns: seq<Conn>, h: nat): (n: nat)
    ensures n <= |conns|
  {
    if conns == [] then 0
    else
      var last := |conns| - 1;
      OpenCount(conns[..last], h) + (if conns[last].open && conns[last].host == h then 1 else 0)
  }

  predicate IsReady(c: Conn) { c.open && c.state == 1 }

  /** `route_gop` */
  function Route(s: State, op: Op): (r: State)
    requires op.host < |s.hosts|
  {
    var hp := s.hosts[op.host];
    s.(hosts := s.hosts[op.host := hp.(pending := [op] + hp.pending, workPending := hp.workPending + op.work)])
  }

  /** Tells a connection to close, on behalf of `req`. */
  function SendClose(s: State, c: nat, req: Option<nat>): (r: State)
    requires c < |s.conns|
  {
    var hc := s.conns[c];
    s.(conns := s.conns[c := hc.(state := 2, incoming := hc.incoming + [Close(req)], req := req)])
  }

  /** `handle_closed`, with the limbo update that precedes it. */
  function HandleClosed(s: State, c: nat, req: Option<nat>, deadAllowed: bool): (r: State)
    requires c < |s.conns| && s.conns[c].host < |s.hosts| && (req.Some? ==> req.value < |s.hosts|)
  {
    var hc := s.conns[c];
    var h := hc.host;
    var hosts1 := if hc.state == 0 then s.hosts[h := s.hosts[h].(limbo := s.hosts[h].limbo - 1)] else s.hosts;
    var hosts2 := if req.Some?
                  then hosts1[req.value := hosts1[req.value].(pendingConn := hosts1[req.value].pendingConn - 1)]
                  else hosts1;
    var conns := s.conns[c := hc.(open := false)];
    var n := OpenCount(conns, h);
    var hp := hosts2[h];
    var hp' := if n <= hp.limbo && hc.state == 0
               then if hp.stable > 0 then hp.(stable := hp.stable - 1)
                    else if n == 0 && deadAllowed then hp.(dead := true) else hp
               else hp;
    s.(hosts := hosts2[h := hp'], conns := conns,
       pendingTotal := if req.Some? then s.pendingTotal - 1 else s.pendingTotal,
       running := s.running - 1,
       hpRunning := if n == 0 then s.hpRunning - 1 else s.hpRunning)
  }

  /** CONN_GOP_RETRY. The connection's own workload is subtracted from itself, as the code has it. */
  function HandleRetry(s: State, c: nat, op: Op): (r: State)
    requires c < |s.conns| && s.conns[c].host < |s.hosts| && op.host < |s.hosts|
  {
    var hc := s.conns[c];
    var hp := s.hosts[hc.host];
    var hp' := hp.(executing := hp.executing - op.work, retried := hp.retried + 1, submitted := hp.submitted - 1);
    Route(s.(conns := s.conns[c := hc.(ntasks := hc.ntasks - 1, workload := hc.workload - hc.workload)],
             hosts := s.hosts[hc.host := hp']), op)
  }

  /** CONN_GOP_DONE */
  function HandleDone(s: State, c: nat, work: nat): (r: State)
    requires c < |s.conns| && s.conns[c].host < |s.hosts|
  {
    var hc := s.conns[c];
    var hp := s.hosts[hc.host];
    s.(conns := s.conns[c := hc.(ntasks := hc.ntasks - 1, workload := hc.workload - work)],
       hosts := s.hosts[hc.host := hp.(executing := hp.executing - work, processed := hp.processed + 1)])
  }

  function HandleReady(s: State, c: nat): (r: State)
    requires c < |s.conns| && s.conns[c].host < |s.hosts|
  {
    var h := s.conns[c].host;
    s.(conns := s.conns[c := s.conns[c].(state := 1)],
       hosts := s.hosts[h := s.hosts[h].(limbo := s.hosts[h].limbo - 1)])
  }

  ghost predicate MsgOk(s: State, m: Msg) {
    match m
    case Gop(op) => op.host < |s.hosts|
    case Ready(c) => c < |s.conns| && s.conns[c].host < |s.hosts|
    case CloseReq(c) => c < |s.conns|
    case Closed(c, req) => c < |s.conns| && s.conns[c].host < |s.hosts| && (req.Some? ==> req.value < |s.hosts|)
    case Retry(c, op) => c < |s.conns| && s.conns[c].host < |s.hosts| && op.host < |s.hosts|
    case Done(c, _) => c < |s.conns| && s.conns[c].host < |s.hosts|
  }

  /** One turn of `process_incoming`. */
  ghost function Receive(s: State, deadAllowed: bool): (r: State)
    requires s.que != [] && MsgOk(s, s.que[0])
  {
    var m := s.que[0];
    var t := s.(que := s.que[1..]);
    match m
    case Gop(op) => Route(t, op)
    case Ready(c) => HandleReady(t, c)
    case CloseReq(c) => if t.conns[c].state == 1 then SendClose(t, c, None) else t
    case Closed(c, req) => HandleClosed(t, c, req, deadAllowed)
    case Retry(c, op) => HandleRetry(t, c, op)
    case Done(c, work) => HandleDone(t, c, work)
  }

  /** One submission of `hp_submit_tasks`. */
  function Dispatch(s: State, h: nat, c: nat): (r: State)
    requires h < |s.hosts| && c < |s.conns| && s.hosts[h].pending != []
  {
    var hp := s.hosts[h];
    var last := |hp.pending| - 1;
    var op := hp.pending[last];
    var hc := s.conns[c];
    s.(conns := s.conns[c := hc.(incoming := hc.incoming + [Submit(op)], workload := hc.workload + op.work,
                                 ntasks := hc.ntasks + 1)],
       hosts := s.hosts[h := hp.(pending := hp.pending[..last], submitted := hp.submitted + 1,
                                 workPending := hp.workPending - op.work, executing := hp.executing + op.work)])
  }

  /** `hp_submit_tasks` with no usable connection: one try of the oldest op is used up. */
  function UseUpTry(s: State, h: nat): (r: State)
    requires h < |s.hosts| && s.hosts[h].pending != []
  {
    var hp := s.hosts[h];
    var last := |hp.pending| - 1;
    var op := hp.pending[last].(retries := hp.pending[last].retries - 1);
    if op.retries <= 0 then
      s.(hosts := s.hosts[h := hp.(pending := hp.pending[..last], submitted := hp.submitted + 1,
                                   processed := hp.processed + 1, workPending := hp.workPending - op.work)],
         completed := s.completed + [op.id])
    else s.(hosts := s.hosts[h := hp.(pending := hp.pending[last := op])])
  }

  function Ids(ops: seq<Op>): (ids: seq<nat>)
    ensures |ids| == |ops|
  {
    if ops == [] then [] else Ids(ops[..|ops| - 1]) + [ops[|ops| - 1].id]
  }

  /** `hp_fail_all_tasks` */
  function FailAll(s: State, h: nat): (r: State)
    requires h < |s.hosts|
  {
    s.(hosts := s.hosts[h := s.hosts[h].(pending := [], workPending := 0)],
       completed := s.completed + Ids(s.hosts[h].pending))
  }

  // ---------------------------------------------------------------- sizing the set of connections

  /** The decision of `check_hportal_connections`: connections to close, connections to open and the
      new stable count. */
  datatype Plan = Plan(close: int, create: int, stable: int)

  /** `check_hportal_connections` up to its effects. `late` says the pause is over, `unpaused` that
      there never was one; `nops` counts the host's pending and submitted ops. */
  function MakePlan(lim: Limits, hp: Host, hpconn: int, hpRunning: int, running: int, pendingTotal: int,
                    late: bool, unpaused: bool): (p: Plan)
    requires LimitsOk(lim)
    ensures 0 <= hp.pendingConn && 0 <= pendingTotal <= running <= lim.maxTotal ==> 0 <= p.close && 0 <= p.create
    ensures running + p.create <= lim.maxTotal || p.create == 0
    ensures 0 <= hp.pendingConn ==> hpconn + p.create <= lim.maxConn || p.create == 0
    ensures p.close > 0 && p.create > 0 ==> running + p.create == lim.maxTotal
  {
    var none := Plan(0, 0, hp.stable);
    var nops := |hp.pending| + hp.submitted - hp.processed;
    var total := hp.workPending + hp.executing;
    var ideal0 := if total < lim.maxWork then 1 else total / lim.maxWork;
    var ideal1 := if ideal0 > nops then nops else ideal0;
    if hp.dead || hpconn >= ideal1 then none
    else
      var ideal := if ideal1 > lim.maxConn then lim.maxConn else ideal1;
      var extra0 := ideal - hpconn - hp.pendingConn;
      if extra0 <= 0 then none
      else
        var average := if hpRunning > 0 then lim.maxTotal / hpRunning else 1;
        var extra1 :=
          if ideal > average then
            var e := if extra0 + running > lim.maxTotal then lim.maxTotal - running else extra0;
            if hpconn + hp.pendingConn == 0 && e == 0 then 1 else e
          else extra0;
        var (extra2, stable) :=
          if ideal > hp.stable then
            if late then
              if hp.stable + 1 > lim.maxTotal then (0, lim.maxTotal) else (1, hp.stable + 1)
            else if hpconn > 0 then (0, hp.stable)
            else if unpaused then (1, hp.stable)
            else (extra1, hp.stable)
          else (extra1, hp.stable);
        var extra3 := if extra2 + pendingTotal > lim.maxTotal then lim.maxTotal - pendingTotal else extra2;
        if extra3 + running > lim.maxTotal then
          var short := extra3 + running - lim.maxTotal;
          Plan(short, if extra3 - short <= 0 then 0 else extra3 - short, stable)
        else Plan(0, extra3, stable)
  }

  function AddConn(s: State, h: nat): (r: State)
    requires h < |s.hosts|
  {
    s.(conns := s.conns + [NewConn(h)],
       hosts := s.hosts[h := s.hosts[h].(limbo := s.hosts[h].limbo + 1)],
       running := s.running + 1,
       hpRunning := if OpenCount(s.conns, h) == 0 then s.hpRunning + 1 else s.hpRunning)
  }

  function AddConns(s: State, h: nat, n: nat): (r: State)
    requires h < |s.hosts|
    ensures |r.hosts| == |s.hosts|
    decreases n
  {
    if n == 0 then s else AddConns(AddConn(s, h), h, n - 1)
  }

  /** Closes one ready connection so that `h` can have another. */
  function CloseFor(s: State, h: nat, c: nat): (r: State)
    requires h < |s.hosts| && c < |s.conns|
  {
    var t := SendClose(s, c, Some(h));
    t.(hosts := s.hosts[h := s.hosts[h].(pendingConn := s.hosts[h].pendingConn + 1)],
       pendingTotal := s.pendingTotal + 1)
  }

  ghost predicate Victims(s: State, vs: seq<nat>) {
    && (forall i :: 0 <= i < |vs| ==> vs[i] < |s.conns| && IsReady(s.conns[vs[i]]))
    && (forall i, j :: 0 <= i < j < |vs| ==> vs[i] != vs[j])
  }

  /** `hpc_close_connections` with the connections it happens to choose. */
  ghost function CloseAll(s: State, h: nat, vs: seq<nat>): (r: State)
    requires h < |s.hosts| && Victims(s, vs)
    ensures |r.hosts| == |s.hosts|
    decreases |vs|
  {
    if vs == [] then s else CloseAll(CloseFor(s, h, vs[0]), h, vs[1..])
  }

  ghost function Adjust(lim: Limits, s: State, h: nat, vs: seq<nat>, late: bool, unpaused: bool): (r: State)
    requires LimitsOk(lim) && h < |s.hosts| && Victims(s, vs)
  {
    var p := MakePlan(lim, s.hosts[h], OpenCount(s.conns, h), s.hpRunning, s.running, s.pendingTotal, late, unpaused);
    var t := s.(hosts := s.hosts[h := s.hosts[h].(stable := p.stable)]);
    AddConns(CloseAll(t, h, vs), h, if p.create < 0 then 0 else p.create)
  }

  // ---------------------------------------------------------------- steps and runs

  datatype Step =
    | Issue(op: Op)                                     // a client submits an op
    | Thread(k: nat, e: Event)                          // a connection thread acts
    | Central(deadAllowed: bool)                        // the central thread handles a message
    | Send(h: nat, c: nat)                              // it dispatches a pending op
    | Fail(h: nat)                                      // it uses up a try
    | FailPending(h: nat)                               // it fails everything pending
    | Resize(h: nat, vs: seq<nat>, late: bool, unpaused: bool)
    | Shutdown(c: nat)                                  // it closes a ready connection on shutdown
    | Mark(h: nat, dead: bool)                          // it marks a host dead or alive again

  ghost predicate Enabled(lim: Limits, s: State, a: Step) {
    match a
    case Issue(op) => op.host < |s.hosts| && op.id !in s.issued
    case Thread(k, e) => k < |s.conns| && s.conns[k].open && CanDo(s.conns[k], e)
    case Central(_) => s.que != [] && MsgOk(s, s.que[0])
    case Send(h, c) =>
      && h < |s.hosts| && c < |s.conns| && s.hosts[h].pending != []
      && IsReady(s.conns[c]) && s.conns[c].host == h && s.conns[c].workload < lim.maxWork
    case Fail(h) =>
      && h < |s.hosts| && s.hosts[h].pending != [] && s.hosts[h].stable == 0
      && forall c :: 0 <= c < |s.conns| && IsReady(s.conns[c]) && s.conns[c].host == h ==>
           s.conns[c].workload > lim.maxWork
    case FailPending(h) => h < |s.hosts| && s.hosts[h].dead && OpenCount(s.conns, h) == 0 && s.hosts[h].limbo == 0
    case Resize(h, vs, late, unpaused) =>
      && h < |s.hosts| && LimitsOk(lim) && Victims(s, vs)
      && var p := MakePlan(lim, s.hosts[h], OpenCount(s.conns, h), s.hpRunning, s.running, s.pendingTotal, late, unpaused);
         |vs| <= p.close || |vs| == 0
    case Shutdown(c) => c < |s.conns| && IsReady(s.conns[c])
    case Mark(h, _) => h < |s.hosts|
  }

  ghost function Apply(lim: Limits, s: State, a: Step): (r: State)
    requires Enabled(lim, s, a)
  {
    match a
    case Issue(op) => s.(que := s.que + [Gop(op)], issued := s.issued + [op.id])
    case Thread(k, e) =>
      var f := Do(s.conns[k], k, e);
      s.(conns := s.conns[k := f.conn], que := s.que + f.out, completed := s.completed + f.done)
    case Central(deadAllowed) => Receive(s, deadAllowed)
    case Send(h, c) => Dispatch(s, h, c)
    case Fail(h) => UseUpTry(s, h)
    case FailPending(h) => FailAll(s, h)
    case Resize(h, vs, late, unpaused) => Adjust(lim, s, h, vs, late, unpaused)
    case Shutdown(c) => SendClose(s, c, None)
    case Mark(h, dead) => s.(hosts := s.hosts[h := s.hosts[h].(dead := dead)])
  }

  ghost predicate Runs(lim: Limits, s: State, acts: seq<Step>)
    decreases |acts|
  {
    acts == [] || (Enabled(lim, s, acts[0]) && Runs(lim, Apply(lim, s, acts[0]), acts[1..]))
  }

  ghost function Exec(lim: Limits, s: State, acts: seq<Step>): (r: State)
    requires Runs(lim, s, acts)
    decreases |acts|
  {
    if acts == [] then s else Exec(lim, Apply(lim, s, acts[0]), acts[1..])
  }
}
