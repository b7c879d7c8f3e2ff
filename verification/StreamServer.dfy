/**
 The TCP server of the first engine: the IO thread reassembles the byte streams of any number of
 connections and passes complete frames through the pool, while the consumer decodes them. Every
 chunking of every stream is interleaved with every load and store of both threads.
 */
module StreamServers {
  import opened Wrappers
  import opened RingBuffers
  import opened Codec
  import opened LossyFifos
  import Pipeline = PipelineV1
  import Reassembly

  /**
   One connection: its partial frame. The other fields record the run: all bytes received, all
   bytes consumed of those, and for each complete frame how many frames, on all connections, had
   been completed with it.
   */
  datatype Conn = Conn(have: nat, frame: Frame, received: seq<Byte>, stream: seq<Byte>, begun: seq<nat>)

  function NewConn(): Conn {
    Conn(0, seq(WIRE_SIZE, _ => 0), [], [], [])
  }

  /** A call of `consume_frames` for connection `c`, with the first `off` bytes of `data` consumed. */
  datatype Call = Call(c: nat, data: seq<Byte>, off: nat)

  /** Which connection a frame came from, and its number in that stream. */
  datatype Origin = Origin(conn: nat, number: nat)

  /** The pool, its two threads and metrics are those of the pipeline; `origins` records the run. */
  datatype State = State(engine: Pipeline.State, conns: seq<Conn>, call: Option<Call>, origins: seq<Origin>)

  /** What the IO thread finds when it is between calls. */
  datatype Event = Accept | Receive(c: nat, data: seq<Byte>)

  /** The connection has a complete frame, and the IO thread is on its way through the pool with it. */
  ghost predicate Busy(s: State, c: nat) {
    s.call.Some? && s.call.value.c == c && !s.engine.io.IoIdle?
  }

  /** Every memory access the next step makes is inside its array. */
  ghost predicate Safe(s: State) {
    && Pipeline.Safe(s.engine)
    && (s.call.Some? ==>
          var k := s.call.value;
          && k.c < |s.conns| && k.off <= |k.data|
          && (s.engine.io.IoIdle? ==> s.conns[k.c].have < WIRE_SIZE))
  }

  /** `memcpy` of bytes that fit into the partial frame. */
  function CopyIn(conn: Conn, chunk: seq<Byte>): Conn
    requires conn.have + |chunk| <= WIRE_SIZE
  {
    var have' := conn.have + |chunk|;
    conn.(have := have', frame := conn.frame[..conn.have] + chunk + conn.frame[have'..], stream := conn.stream + chunk)
  }

  function IoStep(s: State, e: Event): State
    requires Safe(s)
  {
    match s.call
    case None =>
      (match e
       case Accept => s.(conns := s.conns + [NewConn()])
       case Receive(c, data) => if c < |s.conns| then Enter(s, c, data) else s)
    case Some(k) =>
      if !s.engine.io.IoIdle? then
        PassOn(s, k)
      else if k.off == |k.data| then
        s.(call := None)
      else
        TakeChunk(s, k, Reassembly.Min(|k.data| - k.off, WIRE_SIZE - s.conns[k.c].have))
  }

  /** Bytes have arrived for connection `c`. */
  function Enter(s: State, c: nat, data: seq<Byte>): State
    requires c < |s.conns|
  {
    s.(call := Some(Call(c, data, 0)), conns := s.conns[c := s.conns[c].(received := s.conns[c].received + data)])
  }

  /** One more access on the way of a complete frame through the pool; then `have` is 0 again. */
  function PassOn(s: State, k: Call): State
    requires Pipeline.Safe(s.engine) && k.c < |s.conns|
  {
    var engine' := Pipeline.IoStep(s.engine, Datagram([], false));
    s.(engine := engine',
       conns := if engine'.io.IoIdle? then s.conns[k.c := s.conns[k.c].(have := 0)] else s.conns)
  }

  /** One turn of the loop: copy `take` bytes and, if that completes the frame, begin to pass it on. */
  function TakeChunk(s: State, k: Call, take: nat): State
    requires Pipeline.Safe(s.engine) && k.c < |s.conns| && k.off + take <= |k.data|
    requires s.conns[k.c].have + take <= WIRE_SIZE
  {
    var conn := CopyIn(s.conns[k.c], k.data[k.off..k.off + take]);
    var s' := s.(call := Some(k.(off := k.off + take)));
    if conn.have < WIRE_SIZE then s'.(conns := s.conns[k.c := conn]) else Begin(s', k.c, conn)
  }

  function Begin(s: State, c: nat, conn: Conn): State
    requires Pipeline.Safe(s.engine) && c < |s.conns|
  {
    s.(engine := Pipeline.IoStep(s.engine, Datagram(conn.frame, false)),
       conns := s.conns[c := conn.(begun := conn.begun + [|s.origins| + 1])],
       origins := s.origins + [Origin(c, |conn.begun|)])
  }

  ghost predicate Init(s: State) {
    Pipeline.Init(s.engine) && s.conns == [] && s.call == None && s.origins == []
  }

  ghost predicate Next(s: State, s': State) {
    && Safe(s)
    && (|| (exists e :: s' == IoStep(s, e))
        || s' == s.(engine := Pipeline.ConsumerStep(s.engine))
        || s' == s.(engine := s.engine.(running := false)))
  }

  ghost predicate Run(run: seq<State>) {
    && run != [] && Init(run[0])
    && forall i :: 0 <= i && i + 1 < |run| ==> Next(run[i], run[i + 1])
  }

  // The invariant

  /** The complete frames of all streams. */
  function TotalFrames(conns: seq<Conn>): nat {
    if conns == [] then 0 else TotalFrames(conns[..|conns| - 1]) + |conns[|conns| - 1].stream| / WIRE_SIZE
  }

  /** The partial frame is the end of the stream, and every complete frame has been begun. */
  ghost predicate ConnOk(conn: Conn, busy: bool) {
    var total := |conn.stream|;
    && |conn.begun| == total / WIRE_SIZE
    && conn.have <= total && conn.have <= WIRE_SIZE
    && conn.frame[..conn.have] == conn.stream[total - conn.have..]
    && (if busy then conn.have == WIRE_SIZE && total % WIRE_SIZE == 0 else conn.have == total % WIRE_SIZE)
  }

  ghost predicate BegunOk(conn: Conn, c: nat, origins: seq<Origin>) {
    && (forall i :: 0 <= i < |conn.begun| ==>
          0 < conn.begun[i] <= |origins| && origins[conn.begun[i] - 1] == Origin(c, i))
    && (forall i, j :: 0 <= i < j < |conn.begun| ==> conn.begun[i] < conn.begun[j])
  }

  /** The `k`-th frame begun is frame `o.number` of stream `o.conn`, and was offered to the pool as it is. */
  ghost predicate OriginOk(conns: seq<Conn>, o: Origin, k: nat, d: Datagram) {
    && o.conn < |conns|
    && var conn := conns[o.conn];
    && o.number < |conn.begun| && conn.begun[o.number] == k + 1
    && WIRE_SIZE * (o.number + 1) <= |conn.stream|
    && d == Datagram(Reassembly.FrameAt(conn.stream, o.number), false)
  }

  ghost predicate ConnsOk(s: State) {
    && (s.call.None? ==> s.engine.io.IoIdle?)
    && (s.call.Some? ==> s.call.value.c < |s.conns| && s.call.value.off <= |s.call.value.data|)
    && (forall c :: 0 <= c < |s.conns| ==> ConnOk(s.conns[c], Busy(s, c)))
  }

  /** What has been received for `c` and is still to be consumed. */
  function Rest(call: Option<Call>, c: nat): seq<Byte> {
    if call.Some? && call.value.c == c && call.value.off <= |call.value.data|
    then call.value.data[call.value.off..] else []
  }

  /** Every byte received is consumed once, in order. */
  ghost predicate ReceivedOk(s: State) {
    forall c :: 0 <= c < |s.conns| ==> s.conns[c].received == s.conns[c].stream + Rest(s.call, c)
  }

  ghost predicate OriginsOk(s: State) {
    && |s.origins| == |s.engine.offered| == TotalFrames(s.conns)
    && (forall c :: 0 <= c < |s.conns| ==> BegunOk(s.conns[c], c, s.origins))
    && (forall k :: 0 <= k < |s.origins| ==> OriginOk(s.conns, s.origins[k], k, s.engine.offered[k]))
  }

  ghost predicate Invariant(s: State) {
    Pipeline.Invariant(s.engine) && ConnsOk(s) && ReceivedOk(s) && OriginsOk(s)
  }

  lemma InvariantIsSafe(s: State)
    requires Invariant(s)
    ensures Safe(s)
  {
    Pipeline.RingFactsHold(s.engine);
    if s.call.Some? {
      assert ConnOk(s.conns[s.call.value.c], Busy(s, s.call.value.c));
    }
  }

  // Frames and totals

  lemma {:induction false} TotalFramesUpdate(conns: seq<Conn>, c: nat, conn: Conn)
    requires c < |conns|
    ensures TotalFrames(conns[c := conn]) + |conns[c].stream| / WIRE_SIZE ==
            TotalFrames(conns) + |conn.stream| / WIRE_SIZE
  {
    var n := |conns| - 1;
    if c < n {
      TotalFramesUpdate(conns[..n], c, conn);
      assert conns[c := conn][..n] == conns[..n][c := conn];
    } else {
      assert conns[c := conn][..n] == conns[..n];
    }
  }

  lemma TotalFramesSnoc(conns: seq<Conn>, conn: Conn)
    ensures TotalFrames(conns + [conn]) == TotalFrames(conns) + |conn.stream| / WIRE_SIZE
  {
    assert (conns + [conn])[..|conns|] == conns;
  }

  /** What a connection has begun is not affected by what it receives later. */
  ghost predicate Grows(conn: Conn, conn': Conn) {
    conn.stream <= conn'.stream && conn.begun <= conn'.begun
  }

  lemma OriginStays(conns: seq<Conn>, c: nat, conn: Conn, o: Origin, k: nat, d: Datagram)
    requires OriginOk(conns, o, k, d) && c < |conns| && Grows(conns[c], conn)
    ensures OriginOk(conns[c := conn], o, k, d)
  {
    if o.conn == c {
      assert Reassembly.FrameAt(conn.stream, o.number) == Reassembly.FrameAt(conns[c].stream, o.number);
    }
  }

  /** Bytes that do not complete the frame. */
  lemma CopyKeepsConn(conn: Conn, chunk: seq<Byte>)
    requires ConnOk(conn, false) && conn.have + |chunk| < WIRE_SIZE
    ensures var conn' := CopyIn(conn, chunk);
            ConnOk(conn', false) && |conn'.stream| / WIRE_SIZE == |conn.stream| / WIRE_SIZE
  {
    CopyExtends(conn, chunk);
  }

  lemma CopyExtends(conn: Conn, chunk: seq<Byte>)
    requires conn.have <= |conn.stream| && conn.have + |chunk| <= WIRE_SIZE
    requires conn.frame[..conn.have] == conn.stream[|conn.stream| - conn.have..]
    ensures var conn' := CopyIn(conn, chunk);
            conn'.frame[..conn'.have] == conn'.stream[|conn'.stream| - conn'.have..]
  {
    var conn' := CopyIn(conn, chunk);
    assert conn'.frame[..conn'.have] == conn.frame[..conn.have] + chunk;
    assert conn'.stream[|conn'.stream| - conn'.have..] == conn.stream[|conn.stream| - conn.have..] + chunk;
  }

  /** Bytes that complete it: the partial frame is then the next frame of the stream. */
  lemma CopyCompletesConn(conn: Conn, chunk: seq<Byte>, k: nat)
    requires ConnOk(conn, false) && chunk != [] && conn.have + |chunk| == WIRE_SIZE
    ensures var conn' := CopyIn(conn, chunk); var n := |conn.begun|;
            && ConnOk(conn'.(begun := conn.begun + [k]), true) && |conn'.stream| == WIRE_SIZE * (n + 1)
            && conn'.frame == Reassembly.FrameAt(conn'.stream, n)
  {
    var conn', n := CopyIn(conn, chunk), |conn.begun|;
    CopyExtends(conn, chunk);
    assert |conn.stream| == WIRE_SIZE * n + conn.have;
    assert conn'.frame == conn'.frame[..WIRE_SIZE];
  }

  lemma BegunStays(conn: Conn, c: nat, origins: seq<Origin>, o: Origin)
    requires BegunOk(conn, c, origins)
    ensures BegunOk(conn, c, origins + [o])
  {
  }

  lemma BegunGrows(conn: Conn, c: nat, origins: seq<Origin>)
    requires BegunOk(conn, c, origins)
    ensures BegunOk(conn.(begun := conn.begun + [|origins| + 1]), c, origins + [Origin(c, |conn.begun|)])
  {
  }

  // IO steps

  /** A connection changes without beginning a frame. */
  lemma QuietKeepsOrigins(s: State, s': State, c: nat, conn: Conn)
    requires OriginsOk(s) && c < |s.conns| && Grows(s.conns[c], conn) && conn.begun == s.conns[c].begun
    requires |conn.stream| / WIRE_SIZE == |s.conns[c].stream| / WIRE_SIZE
    requires s'.origins == s.origins && s'.engine.offered == s.engine.offered && s'.conns == s.conns[c := conn]
    ensures OriginsOk(s')
  {
    TotalFramesUpdate(s.conns, c, conn);
    forall k | 0 <= k < |s.origins|
      ensures OriginOk(s'.conns, s'.origins[k], k, s'.engine.offered[k])
    {
      OriginStays(s.conns, c, conn, s.origins[k], k, s.engine.offered[k]);
    }
    forall e | 0 <= e < |s'.conns|
      ensures BegunOk(s'.conns[e], e, s'.origins)
    {
      assert BegunOk(s.conns[e], e, s.origins);
    }
  }

  lemma BeginAddsFrame(conns: seq<Conn>, c: nat, conn: Conn, n: nat)
    requires c < |conns| && |conns[c].stream| / WIRE_SIZE == n && |conn.stream| == WIRE_SIZE * (n + 1)
    ensures TotalFrames(conns[c := conn]) == TotalFrames(conns) + 1
  {
    TotalFramesUpdate(conns, c, conn);
  }

  lemma NewOriginOk(conns: seq<Conn>, c: nat, conn: Conn, k: nat, f: Frame)
    requires c < |conns| && |conn.stream| == WIRE_SIZE * (|conn.begun| + 1)
    requires f == Reassembly.FrameAt(conn.stream, |conn.begun|)
    ensures OriginOk(conns[c := conn.(begun := conn.begun + [k + 1])], Origin(c, |conn.begun|), k, Datagram(f, false))
  {
  }

  lemma BeginKeepsOrigins(s: State, s': State, c: nat, conn: Conn, f: Frame)
    requires OriginsOk(s) && c < |s.conns| && conn.begun == s.conns[c].begun && s.conns[c].stream <= conn.stream
    requires |conn.begun| == |s.conns[c].stream| / WIRE_SIZE && |conn.stream| == WIRE_SIZE * (|conn.begun| + 1)
    requires f == Reassembly.FrameAt(conn.stream, |conn.begun|)
    requires s'.origins == s.origins + [Origin(c, |conn.begun|)]
          && s'.engine.offered == s.engine.offered + [Datagram(f, false)]
    requires s'.conns == s.conns[c := conn.(begun := conn.begun + [|s.origins| + 1])]
    ensures OriginsOk(s')
  {
    var grown := conn.(begun := conn.begun + [|s.origins| + 1]);
    BeginAddsFrame(s.conns, c, grown, |conn.begun|);
    NewOriginOk(s.conns, c, conn, |s.origins|, f);
    assert BegunOk(conn, c, s.origins) by {
      assert BegunOk(s.conns[c], c, s.origins);
    }
    hide OriginOk, BegunOk, TotalFrames, Reassembly.FrameAt;
    forall k | 0 <= k < |s'.origins|
      ensures OriginOk(s'.conns, s'.origins[k], k, s'.engine.offered[k])
    {
      if k < |s.origins| {
        OriginStays(s.conns, c, grown, s.origins[k], k, s.engine.offered[k]);
      }
    }
    forall e | 0 <= e < |s'.conns|
      ensures BegunOk(s'.conns[e], e, s'.origins)
    {
      BegunStays(s.conns[e], e, s.origins, Origin(c, |conn.begun|));
      if e == c {
        BegunGrows(conn, c, s.origins);
      }
    }
  }

  lemma RestShrinks(received: seq<Byte>, stream: seq<Byte>, data: seq<Byte>, off: nat, take: nat)
    requires off + take <= |data| && received == stream + data[off..]
    ensures received == (stream + data[off..off + take]) + data[off + take..]
  {
    assert data[off..] == data[off..off + take] + data[off + take..];
  }

  lemma TakeKeepsReceived(s: State, k: Call, take: nat)
    requires ReceivedOk(s) && Pipeline.Safe(s.engine) && s.call == Some(k) && k.c < |s.conns|
    requires k.off + take <= |k.data| && s.conns[k.c].have + take <= WIRE_SIZE
    ensures ReceivedOk(TakeChunk(s, k, take))
  {
    hide Pipeline.IoStep, Pipeline.Safe;
    var s', conn := TakeChunk(s, k, take), s.conns[k.c];
    RestShrinks(conn.received, conn.stream, k.data, k.off, take);
    forall c | 0 <= c < |s'.conns|
      ensures s'.conns[c].received == s'.conns[c].stream + Rest(s'.call, c)
    {
      assert s.conns[c].received == s.conns[c].stream + Rest(s.call, c);
    }
  }

  lemma TakePartKeeps(s: State, k: Call, take: nat)
    requires Invariant(s) && Pipeline.Safe(s.engine) && s.call == Some(k) && s.engine.io.IoIdle?
    requires 0 < take && k.off + take <= |k.data| && s.conns[k.c].have + take < WIRE_SIZE
    ensures Invariant(TakeChunk(s, k, take))
  {
    var s', conn, chunk := TakeChunk(s, k, take), s.conns[k.c], k.data[k.off..k.off + take];
    assert ConnOk(conn, Busy(s, k.c));
    CopyKeepsConn(conn, chunk);
    TakeKeepsReceived(s, k, take);
    QuietKeepsOrigins(s, s', k.c, CopyIn(conn, chunk));
    forall c | 0 <= c < |s'.conns|
      ensures ConnOk(s'.conns[c], Busy(s', c))
    {
      assert ConnOk(s.conns[c], Busy(s, c));
    }
  }

  lemma TakeLastKeeps(s: State, k: Call, take: nat)
    requires Invariant(s) && Pipeline.Safe(s.engine) && s.call == Some(k) && s.engine.io.IoIdle?
    requires 0 < take && k.off + take <= |k.data| && s.conns[k.c].have + take == WIRE_SIZE
    ensures Invariant(TakeChunk(s, k, take))
  {
    var s', conn, chunk := TakeChunk(s, k, take), s.conns[k.c], k.data[k.off..k.off + take];
    assert ConnOk(conn, Busy(s, k.c));
    var conn' := CopyIn(conn, chunk);
    CopyCompletesConn(conn, chunk, |s.origins| + 1);
    TakeKeepsReceived(s, k, take);
    Pipeline.IoKeeps(s.engine, Datagram(conn'.frame, false));
    BeginsPop(s.engine, conn'.frame);
    BeginKeepsOrigins(s, s', k.c, conn', conn'.frame);
    forall c | 0 <= c < |s'.conns|
      ensures ConnOk(s'.conns[c], Busy(s', c))
    {
      assert ConnOk(s.conns[c], Busy(s, c));
    }
  }

  lemma BeginsPop(e: Pipeline.State, f: Frame)
    requires Pipeline.Safe(e) && e.io.IoIdle?
    ensures Pipeline.IoStep(e, Datagram(f, false)) ==
            e.(offered := e.offered + [Datagram(f, false)], io := Pipeline.IoPop(f, PopLoadHead))
  {
  }

  lemma BusyKeepsOffered(e: Pipeline.State, d: Datagram)
    requires Pipeline.Safe(e) && !e.io.IoIdle?
    ensures Pipeline.IoStep(e, d).offered == e.offered
  {
  }

  lemma PassOnKeeps(s: State, k: Call)
    requires Invariant(s) && Pipeline.Safe(s.engine) && s.call == Some(k) && !s.engine.io.IoIdle?
    ensures Invariant(PassOn(s, k))
  {
    hide Pipeline.Invariant, Pipeline.IoStep;
    var s', conn := PassOn(s, k), s.conns[k.c];
    Pipeline.IoKeeps(s.engine, Datagram([], false));
    BusyKeepsOffered(s.engine, Datagram([], false));
    assert ConnOk(conn, Busy(s, k.c));
    QuietKeepsOrigins(s, s', k.c, s'.conns[k.c]);
    forall c | 0 <= c < |s'.conns|
      ensures ConnOk(s'.conns[c], Busy(s', c))
    {
      assert ConnOk(s.conns[c], Busy(s, c));
    }
  }

  lemma AcceptKeepsOrigins(s: State, s': State)
    requires OriginsOk(s) && s' == s.(conns := s.conns + [NewConn()])
    ensures OriginsOk(s')
  {
    TotalFramesSnoc(s.conns, NewConn());
    assert BegunOk(NewConn(), |s.conns|, s.origins);
    forall k | 0 <= k < |s.origins|
      ensures OriginOk(s'.conns, s'.origins[k], k, s'.engine.offered[k])
    {
      assert OriginOk(s.conns, s.origins[k], k, s.engine.offered[k]);
    }
    hide OriginOk, BegunOk, TotalFrames;
    forall c | 0 <= c < |s'.conns|
      ensures BegunOk(s'.conns[c], c, s'.origins)
    {
      assert c < |s.conns| ==> BegunOk(s.conns[c], c, s.origins);
    }
  }

  lemma AcceptKeeps(s: State)
    requires Invariant(s) && s.call.None?
    ensures Invariant(s.(conns := s.conns + [NewConn()]))
  {
    hide Pipeline.Invariant, OriginsOk;
    var s' := s.(conns := s.conns + [NewConn()]);
    AcceptKeepsOrigins(s, s');
    assert ConnOk(NewConn(), false);
    hide ConnOk;
    forall c | 0 <= c < |s'.conns|
      ensures ConnOk(s'.conns[c], Busy(s', c))
    {
      assert c < |s.conns| ==> ConnOk(s.conns[c], Busy(s, c));
    }
  }

  lemma EnterKeepsReceived(s: State, c: nat, data: seq<Byte>)
    requires ReceivedOk(s) && s.call.None? && c < |s.conns|
    ensures ReceivedOk(Enter(s, c, data))
  {
    assert data[0..] == data && s.conns[c].received == s.conns[c].stream;
  }

  lemma EnterKeeps(s: State, c: nat, data: seq<Byte>)
    requires Invariant(s) && s.call.None? && c < |s.conns|
    ensures Invariant(Enter(s, c, data))
  {
    hide Pipeline.Invariant, OriginsOk;
    var s' := Enter(s, c, data);
    EnterKeepsReceived(s, c, data);
    QuietKeepsOrigins(s, s', c, s'.conns[c]);
    forall e | 0 <= e < |s.conns|
      ensures ConnOk(s'.conns[e], Busy(s', e))
    {
      assert ConnOk(s.conns[e], Busy(s, e));
    }
  }

  /** Nothing changes for the streams when only the call or the consumer's side of the engine does. */
  lemma SameStreamsKeeps(s: State, engine': Pipeline.State, call': Option<Call>)
    requires Invariant(s) && Pipeline.Invariant(engine')
          && engine'.io == s.engine.io && engine'.offered == s.engine.offered
    requires call' == s.call || s.engine.io.IoIdle?
    requires call'.Some? ==> call'.value.c < |s.conns| && call'.value.off <= |call'.value.data|
    requires forall c :: 0 <= c < |s.conns| ==> Rest(call', c) == Rest(s.call, c)
    ensures Invariant(s.(engine := engine', call := call'))
  {
    var s' := s.(engine := engine', call := call');
    forall c | 0 <= c < |s.conns|
      ensures ConnOk(s'.conns[c], Busy(s', c))
    {
      assert ConnOk(s.conns[c], Busy(s, c)) && Busy(s', c) == Busy(s, c);
    }
    forall c | 0 <= c < |s.conns|
      ensures BegunOk(s'.conns[c], c, s'.origins)
    {
      assert BegunOk(s.conns[c], c, s.origins);
    }
    forall k | 0 <= k < |s.origins|
      ensures OriginOk(s'.conns, s'.origins[k], k, s'.engine.offered[k])
    {
      assert OriginOk(s.conns, s.origins[k], k, s.engine.offered[k]);
    }
  }

  lemma IoKeeps(s: State, e: Event)
    requires Invariant(s) && Safe(s)
    ensures Invariant(IoStep(s, e))
  {
    hide Pipeline.Invariant, OriginsOk, PassOn, TakeChunk;
    match s.call
    case None =>
      if e.Accept? {
        AcceptKeeps(s);
      } else if e.c < |s.conns| {
        EnterKeeps(s, e.c, e.data);
      }
    case Some(k) =>
      if !s.engine.io.IoIdle? {
        PassOnKeeps(s, k);
      } else if k.off == |k.data| {
        SameStreamsKeeps(s, s.engine, None);
      } else {
        var take := Reassembly.Min(|k.data| - k.off, WIRE_SIZE - s.conns[k.c].have);
        if s.conns[k.c].have + take < WIRE_SIZE {
          TakePartKeeps(s, k, take);
        } else {
          TakeLastKeeps(s, k, take);
        }
      }
  }

  lemma ConsumerKeepsIo(e: Pipeline.State)
    requires Pipeline.Safe(e)
    ensures var e' := Pipeline.ConsumerStep(e); e'.io == e.io && e'.offered == e.offered
  {
  }

  lemma StepKeeps(s: State, s': State)
    requires Invariant(s) && Next(s, s')
    ensures Invariant(s')
  {
    if s' == s.(engine := Pipeline.ConsumerStep(s.engine)) {
      Pipeline.ConsumerKeeps(s.engine);
      ConsumerKeepsIo(s.engine);
      SameStreamsKeeps(s, s'.engine, s.call);
    } else if s' == s.(engine := s.engine.(running := false)) {
      Pipeline.StopKeeps(s.engine);
      SameStreamsKeeps(s, s'.engine, s.call);
    } else {
      var e :| s' == IoStep(s, e);
      IoKeeps(s, e);
    }
  }

  lemma {:induction false} RunKeeps(run: seq<State>, i: nat)
    requires Run(run) && i < |run|
    ensures Invariant(run[i])
  {
    if i == 0 {
      Pipeline.InitInvariant(run[0].engine);
    } else {
      RunKeeps(run, i - 1);
      assert Next(run[i - 1], run[i - 1 + 1]);
      StepKeeps(run[i - 1], run[i]);
    }
  }

  // What every run shows

  ghost predicate Accepted(s: State, n: nat) {
    && |s.engine.acceptedAt| == |s.engine.accepted| && n < |s.engine.accepted|
    && 0 < s.engine.acceptedAt[n] <= |s.origins|
  }

  /** Which frame of which stream the `n`-th accepted frame was. */
  function OriginOf(s: State, n: nat): Origin
    requires Accepted(s, n)
  {
    s.origins[s.engine.acceptedAt[n] - 1]
  }

  /** The `n`-th accepted frame is, byte for byte, the frame of the stream that it stands for. */
  ghost predicate IsFrameOf(s: State, n: nat)
    requires Accepted(s, n)
  {
    var o := OriginOf(s, n);
    && o.conn < |s.conns| && WIRE_SIZE * (o.number + 1) <= |s.conns[o.conn].stream|
    && s.engine.accepted[n] == Reassembly.FrameAt(s.conns[o.conn].stream, o.number)
  }

  ghost predicate InStreamOrder(s: State, m: nat, n: nat)
    requires Accepted(s, m) && Accepted(s, n)
  {
    OriginOf(s, m).conn == OriginOf(s, n).conn ==> OriginOf(s, m).number < OriginOf(s, n).number
  }

  /** Slot by slot: what is ready and not yet taken still holds the frame accepted through it. */
  ghost predicate SlotsHoldFrames(e: Pipeline.State) {
    forall n :: e.readyHistory.popped <= n < |e.readyHistory.pushed| ==>
      && n < |e.accepted| && e.readyHistory.pushed[n] < |e.slots|
      && e.slots[e.readyHistory.pushed[n]] == e.accepted[n]
  }

  lemma AcceptedIsFrame(s: State, n: nat)
    requires Invariant(s) && n < |s.engine.accepted|
    ensures Accepted(s, n) && IsFrameOf(s, n)
  {
    var e := s.engine;
    assert IsOffered(e.offered, e.acceptedAt[n], e.accepted[n]);
    var k := e.acceptedAt[n] - 1;
    assert OriginOk(s.conns, s.origins[k], k, e.offered[k]);
  }

  lemma BegunInOrder(conn: Conn, i: nat, j: nat)
    requires i < |conn.begun| && j < |conn.begun| && conn.begun[i] < conn.begun[j]
    requires forall i, j :: 0 <= i < j < |conn.begun| ==> conn.begun[i] < conn.begun[j]
    ensures i < j
  {
  }

  lemma OriginsInOrder(s: State, a: nat, b: nat)
    requires OriginsOk(s) && a < b < |s.origins| && s.origins[a].conn == s.origins[b].conn
    ensures s.origins[a].number < s.origins[b].number
  {
    var p, q := s.origins[a], s.origins[b];
    assert OriginOk(s.conns, p, a, s.engine.offered[a]) && OriginOk(s.conns, q, b, s.engine.offered[b]);
    assert BegunOk(s.conns[p.conn], p.conn, s.origins);
    BegunInOrder(s.conns[p.conn], p.number, q.number);
  }

  lemma AcceptedInOrder(s: State, m: nat, n: nat)
    requires OriginsOk(s) && Pipeline.SourceOk(s.engine) && m < n < |s.engine.accepted|
    requires Accepted(s, m) && Accepted(s, n)
    ensures InStreamOrder(s, m, n)
  {
    hide OriginsOk;
    var a, b := s.engine.acceptedAt[m] - 1, s.engine.acceptedAt[n] - 1;
    if s.origins[a].conn == s.origins[b].conn {
      OriginsInOrder(s, a, b);
    }
  }

  /**
   Drops never desynchronise the framing. For every chunking of every stream and every
   interleaving with the consumer: frames accepted are frames of the streams, complete, unaltered
   and in the order of their stream; each slot between the threads still holds its frame; what was
   decoded are the first of those accepted.
   */
  lemma StreamsReachSlots(run: seq<State>, i: nat)
    requires Run(run) && i < |run|
    ensures var s := run[i];
            && (forall n :: 0 <= n < |s.engine.accepted| ==> Accepted(s, n) && IsFrameOf(s, n))
            && (forall m, n :: 0 <= m < n < |s.engine.accepted| ==> InStreamOrder(s, m, n))
            && SlotsHoldFrames(s.engine) && s.engine.decoded <= s.engine.accepted
  {
    var s := run[i];
    RunKeeps(run, i);
    forall n | 0 <= n < |s.engine.accepted|
      ensures Accepted(s, n) && IsFrameOf(s, n)
    {
      AcceptedIsFrame(s, n);
    }
    forall m, n | 0 <= m < n < |s.engine.accepted|
      ensures InStreamOrder(s, m, n)
    {
      AcceptedInOrder(s, m, n);
    }
    DataInSlots(s.engine);
  }

  lemma DataInSlots(e: Pipeline.State)
    requires Pipeline.DataOk(e)
    ensures SlotsHoldFrames(e) && e.decoded <= e.accepted
  {
  }

  /**
   Counting: every byte received is consumed once and in order, or still to be consumed by the
   current call; a connection that is not passing a frame on holds the bytes left over by 44; the
   complete frames of all streams are those accepted, those dropped and the one being passed on;
   and no push to `ready` ever fails, so a frame is dropped only because no slot was free.
   */
  lemma StreamsAreCounted(run: seq<State>, i: nat)
    requires Run(run) && i < |run|
    ensures var s := run[i]; var e := s.engine;
            && (forall c :: 0 <= c < |s.conns| ==> |s.conns[c].begun| == |s.conns[c].stream| / WIRE_SIZE)
            && (forall c :: 0 <= c < |s.conns| ==> s.conns[c].received == s.conns[c].stream + Rest(s.call, c))
            && (forall c :: 0 <= c < |s.conns| && !Busy(s, c) ==> s.conns[c].have == |s.conns[c].stream| % WIRE_SIZE)
            && TotalFrames(s.conns) == |e.accepted| + e.ioDrops + (if e.io.IoIdle? then 0 else 1)
            && Safe(s) && !e.io.IoFallback?
            && (e.io.IoPush? ==> PushStep(e.ready, e.io.push).1 != PushDone(false))
  {
    var s := run[i];
    RunKeeps(run, i);
    InvariantIsSafe(s);
    Pipeline.RingFactsHold(s.engine);
    forall c | 0 <= c < |s.conns|
      ensures |s.conns[c].begun| == |s.conns[c].stream| / WIRE_SIZE
      ensures !Busy(s, c) ==> s.conns[c].have == |s.conns[c].stream| % WIRE_SIZE
    {
      assert ConnOk(s.conns[c], Busy(s, c));
    }
  }

  /** Without drops, and between frames, every complete frame of every stream has been accepted. */
  lemma LosslessStreams(run: seq<State>, i: nat, c: nat, number: nat) returns (n: nat)
    requires Run(run) && i < |run| && run[i].engine.ioDrops == 0 && run[i].engine.io.IoIdle?
    requires c < |run[i].conns| && WIRE_SIZE * (number + 1) <= |run[i].conns[c].stream|
    ensures Accepted(run[i], n) && OriginOf(run[i], n) == Origin(c, number)
    ensures run[i].engine.accepted[n] == Reassembly.FrameAt(run[i].conns[c].stream, number)
  {
    hide Pipeline.Invariant;
    var s := run[i];
    RunKeeps(run, i);
    assert ConnOk(s.conns[c], Busy(s, c)) && BegunOk(s.conns[c], c, s.origins);
    n := s.conns[c].begun[number] - 1;
    AcceptedAll(s.engine, n);
    AcceptedIsFrame(s, n);
  }

  lemma AcceptedAll(e: Pipeline.State, n: nat)
    requires Pipeline.Invariant(e) && e.ioDrops == 0 && e.io.IoIdle? && n < |e.offered|
    ensures n < |e.accepted| == |e.acceptedAt| && e.acceptedAt[n] == n + 1
  {
    forall k | 0 <= k < |e.acceptedAt|
      ensures 0 < e.acceptedAt[k] <= |e.acceptedAt|
    {
      assert IsOffered(e.offered, e.acceptedAt[k], e.accepted[k]);
    }
    DenseIncreasing(e.acceptedAt, n);
  }

  // When a frame is dropped

  lemma EngineSteps(s: State, s': State)
    requires Invariant(s) && Next(s, s')
    ensures s'.engine == s.engine || Pipeline.Next(s.engine, s'.engine)
    ensures |s'.engine.offered| > |s.engine.offered| ==>
              var d := s'.engine.offered[|s.engine.offered|]; !d.truncated && |d.bytes| == 44
  {
    if s' == s.(engine := Pipeline.ConsumerStep(s.engine)) {
      ConsumerKeepsIo(s.engine);
    } else if s' == s.(engine := s.engine.(running := false)) {
      assert Pipeline.Next(s.engine, s'.engine);
    } else {
      var e :| s' == IoStep(s, e);
      IoEngineSteps(s, e);
    }
  }

  lemma IoEngineSteps(s: State, e: Event)
    requires Safe(s)
    ensures var s' := IoStep(s, e);
            && (s'.engine == s.engine || Pipeline.Next(s.engine, s'.engine))
            && (|s'.engine.offered| > |s.engine.offered| ==>
                  var d := s'.engine.offered[|s.engine.offered|]; !d.truncated && |d.bytes| == 44)
  {
    var s' := IoStep(s, e);
    if s.call.Some? && !s.engine.io.IoIdle? {
      BusyKeepsOffered(s.engine, Datagram([], false));
      assert s'.engine == Pipeline.IoStep(s.engine, Datagram([], false));
    } else if s.call.Some? && s'.engine != s.engine {
      var f := CopyIn(s.conns[s.call.value.c], s.call.value.data[s.call.value.off..s'.call.value.off]).frame;
      BeginsPop(s.engine, f);
      assert s'.engine == Pipeline.IoStep(s.engine, Datagram(f, false));
    }
  }

  /**
   A frame is dropped for want of a free slot and for no other reason: in every run the counter goes
   up at a step, by one, exactly if the step finds `free` empty.
   */
  lemma DropsIff(run: seq<State>, i: nat)
    requires Run(run) && i + 1 < |run|
    ensures var e, e' := run[i].engine, run[i + 1].engine;
            e'.ioDrops == e.ioDrops + (if Pipeline.FindsNoSlot(e) && e'.io != e.io then 1 else 0)
  {
    var s, s' := run[i], run[i + 1];
    RunKeeps(run, i);
    assert Next(s, run[i + 1]);
    EngineSteps(s, s');
    hide Next, Invariant;
    if s'.engine != s.engine {
      EngineDrops(s);
      Pipeline.StepDrops(s.engine, s'.engine);
    }
  }

  lemma EngineDrops(s: State)
    requires Invariant(s)
    ensures Pipeline.Invariant(s.engine) && Pipeline.RingFacts(s.engine)
  {
    Pipeline.RingFactsHold(s.engine);
  }
}
