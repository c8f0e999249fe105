/**
 The broker and the content worker as two parties over a pair of ordered channels, and the broker
 object that owns one connection at a time. Frames are abstract messages; file bytes travel as
 raw chunks.
 */
module WorkerProtocol {
  import opened Paths
  import opened Streaming

  type Digest = nat
  type RequestId = seq<int>

  datatype World = World(rules: seq<Rule>, chunkBytes: nat, maxFileBytes: nat, digest: Bytes -> Digest)

  datatype Severity = Info | Low | Medium | High | Critical | OtherSeverity

  datatype Observation = Observation(
    provider: string, category: string, severity: Severity, summary: string, eligible: bool)

  datatype Body =
    | Scan(sha: Digest, bytesRead: int, ids: seq<string>, observations: seq<Observation>)
    | Error

  datatype Frame =
    | Hello
    | Configuration
    | Acknowledged
    | Request(id: RequestId, size: int)
    | Chunk(bytes: Bytes)
    | Response(id: RequestId, body: Body)
    | Shutdown

  datatype Broker =
    | AwaitHello
    | AwaitAck
    | Idle
    | Streaming(id: RequestId, size: nat, sent: Bytes)
    | AwaitResponse(id: RequestId, size: nat, sent: Bytes)
    | Closed

  datatype Worker =
    | Starting
    | AwaitConfiguration
    | AwaitRequest
    | Reading(id: RequestId, size: int, got: Bytes)
    | Exited

  /** One connection: `up` carries frames to the worker, `down` carries them back. `last` is the
      content and the accepted answer of the latest successful inspection. */
  datatype Connection = Connection(
    broker: Broker, worker: Worker, up: seq<Frame>, down: seq<Frame>, last: Option<(Bytes, Body)>)

  const OPENED := Connection(AwaitHello, Starting, [], [], None)

  // ---------- the worker ----------

  /** What the worker answers once the stream is complete: the sorted list of matched ids, and
      observations that the content inspection keeps within their bounds. */
  ghost predicate AnswersScan(w: World, content: Bytes, body: Body) {
    && body.Scan? && body.sha == w.digest(content) && body.bytesRead == |content|
    && (forall i :: i in body.ids <==> i in Matching(w.rules, content))
    && (forall i, j :: 0 <= i < j < |body.ids| ==> body.ids[i] != body.ids[j])
    && |body.observations| <= 32 && (forall o :: o in body.observations ==> WellFormed(o))
  }

  ghost predicate WorkerCanStep(c: Connection) {
    match c.worker
    case Starting => true
    case AwaitConfiguration => c.up != []
    case AwaitRequest => c.up != []
    case Reading(_, size, got) => |got| >= size || c.up != []
    case Exited => false
  }

  /** One action of the worker; `body` is its report when a stream has just ended. */
  ghost function WorkerStep(w: World, c: Connection, body: Body): Connection
    requires WorkerCanStep(c)
  {
    match c.worker
    case Starting => c.(worker := AwaitConfiguration, down := c.down + [Hello])
    case AwaitConfiguration =>
      if c.up[0].Configuration? then c.(worker := AwaitRequest, up := c.up[1..], down := c.down + [Acknowledged])
      else c.(worker := Exited, up := c.up[1..])
    case AwaitRequest =>
      if c.up[0].Request? then
        if c.up[0].size > w.maxFileBytes then c.(up := c.up[1..], down := c.down + [Response(c.up[0].id, Error)])
        else c.(worker := Reading(c.up[0].id, c.up[0].size, []), up := c.up[1..])
      else c.(worker := Exited, up := c.up[1..])
    case Reading(id, size, got) =>
      if |got| >= size then c.(worker := AwaitRequest, down := c.down + [Response(id, body)])
      else if !c.up[0].Chunk? || StreamFault(w, c.up[0].bytes, size - |got|) then
        c.(worker := AwaitRequest, up := c.up[1..], down := c.down + [Response(id, Error)])
      else c.(worker := Reading(id, size, got + c.up[0].bytes), up := c.up[1..])
  }

  /** The error branches of the worker's streaming loop. */
  predicate StreamFault(w: World, chunk: Bytes, left: int) {
    chunk == [] || |chunk| > w.chunkBytes || |chunk| > left
  }

  // ---------- the broker ----------

  datatype Step =
    | Work(body: Body)
    | TakeHello
    | TakeAck
    | Ask(id: RequestId, size: nat)
    | Send(chunk: Bytes)
    | EndOfFile(sameStat: bool)
    | TakeResponse
    | GiveUp

  /** `size` is within policy because the scanner checks it first; a read returns 1 to `chunkBytes` bytes. */
  ghost predicate Enabled(w: World, c: Connection, step: Step) {
    match step
    case Work(body) =>
      WorkerCanStep(c) && (c.worker.Reading? && |c.worker.got| >= c.worker.size ==> AnswersScan(w, c.worker.got, body))
    case TakeHello => c.broker.AwaitHello? && c.down != []
    case TakeAck => c.broker.AwaitAck? && c.down != []
    case Ask(_, size) => c.broker.Idle? && size <= w.maxFileBytes
    case Send(chunk) => c.broker.Streaming? && 1 <= |chunk| <= w.chunkBytes
    case EndOfFile(_) => c.broker.Streaming?
    case TakeResponse => c.broker.AwaitResponse? && c.down != []
    case GiveUp => !c.broker.Closed?
  }

  function Close(c: Connection): Connection {
    c.(broker := Closed, up := c.up + [Shutdown])
  }

  ghost function Next(w: World, c: Connection, step: Step): Connection
    requires Enabled(w, c, step)
  {
    match step
    case Work(body) => WorkerStep(w, c, body)
    case TakeHello =>
      var c' := c.(down := c.down[1..]);
      if c.down[0].Hello? then c'.(broker := AwaitAck, up := c'.up + [Configuration]) else Close(c')
    case TakeAck =>
      var c' := c.(down := c.down[1..]);
      if c.down[0].Acknowledged? then c'.(broker := Idle) else Close(c')
    case Ask(id, size) => c.(broker := Streaming(id, size, []), up := c.up + [Request(id, size)])
    case Send(chunk) =>
      var b := c.broker;
      if |b.sent| + |chunk| > b.size || |b.sent| + |chunk| > w.maxFileBytes then Close(c)
      else c.(broker := Streaming(b.id, b.size, b.sent + chunk), up := c.up + [Chunk(chunk)])
    case EndOfFile(sameStat) =>
      var b := c.broker;
      if !sameStat || |b.sent| != b.size then Close(c) else c.(broker := AwaitResponse(b.id, b.size, b.sent))
    case TakeResponse =>
      var b := c.broker;
      var c' := c.(down := c.down[1..]);
      if Acceptable(w, c.down[0], b.id, b.size, w.digest(b.sent))
      then c'.(broker := Idle, last := Some((b.sent, c.down[0].body)))
      else Close(c')
    case GiveUp => Close(c)
  }

  /** `_validate_response` and the digest comparison. */
  predicate Acceptable(w: World, f: Frame, id: RequestId, size: nat, digest: Digest) {
    && f.Response? && f.id == id && f.body.Scan?
    && f.body.bytesRead == size
    && |f.body.observations| <= 32
    && (forall i, j :: 0 <= i < j < |f.body.ids| ==> f.body.ids[i] != f.body.ids[j])
    && (forall i :: i in f.body.ids ==> exists r :: r in w.rules && r.id == i)
    && (forall o :: o in f.body.observations ==> WellFormed(o))
    && f.body.sha == digest
  }

  predicate WellFormed(o: Observation) {
    && 1 <= |o.provider| <= 40 && 1 <= |o.category| <= 80 && 1 <= |o.summary| <= 300
    && !o.severity.OtherSeverity? && !o.eligible
  }

  ghost predicate Feasible(w: World, c: Connection, steps: seq<Step>)
    decreases |steps|
  {
    steps == [] || (Enabled(w, c, steps[0]) && Feasible(w, Next(w, c, steps[0]), steps[1..]))
  }

  ghost function Run(w: World, c: Connection, steps: seq<Step>): Connection
    requires Feasible(w, c, steps)
    decreases |steps|
  {
    if steps == [] then c else Run(w, Next(w, c, steps[0]), steps[1..])
  }

  // ---------- the invariant of an open connection ----------

  /** The frames are chunks of a legal stream with the given content. */
  ghost predicate Carries(w: World, frames: seq<Frame>, content: Bytes)
    decreases |frames|
  {
    if frames == [] then content == []
    else
      && frames[0].Chunk? && 1 <= |frames[0].bytes| <= w.chunkBytes && frames[0].bytes <= content
      && Carries(w, frames[1..], content[|frames[0].bytes|..])
  }

  /** A request in flight: the worker has not taken it, is reading it, or has answered it. */
  ghost predicate InFlight(w: World, c: Connection, id: RequestId, size: nat, sent: Bytes) {
    && size <= w.maxFileBytes && |sent| <= size
    && match c.worker
       case AwaitRequest =>
         || (c.down == [] && c.up != [] && c.up[0] == Request(id, size) && Carries(w, c.up[1..], sent))
         || (c.up == [] && |sent| == size && |c.down| == 1 && c.down[0].Response? && c.down[0].id == id
             && AnswersScan(w, sent, c.down[0].body))
       case Reading(i, s, got) =>
         c.down == [] && i == id && s == size && got <= sent && Carries(w, c.up, sent[|got|..])
       case _ => false
  }

  ghost predicate InStep(w: World, c: Connection) {
    match c.broker
    case AwaitHello =>
      c.up == [] && ((c.worker.Starting? && c.down == []) || (c.worker.AwaitConfiguration? && c.down == [Hello]))
    case AwaitAck =>
      || (c.worker.AwaitConfiguration? && c.up == [Configuration] && c.down == [])
      || (c.worker.AwaitRequest? && c.up == [] && c.down == [Acknowledged])
    case Idle => c.worker.AwaitRequest? && c.up == [] && c.down == []
    case Streaming(id, size, sent) => InFlight(w, c, id, size, sent)
    case AwaitResponse(id, size, sent) => |sent| == size && InFlight(w, c, id, size, sent)
    case Closed => true
  }

  lemma {:induction false} CarriesMore(w: World, frames: seq<Frame>, content: Bytes, chunk: Bytes)
    requires Carries(w, frames, content) && 1 <= |chunk| <= w.chunkBytes
    ensures Carries(w, frames + [Chunk(chunk)], content + chunk)
    decreases |frames|
  {
    if frames == [] {
      assert frames + [Chunk(chunk)] == [Chunk(chunk)];
      assert content + chunk == chunk;
    } else {
      var n := |frames[0].bytes|;
      CarriesMore(w, frames[1..], content[n..], chunk);
      assert (frames + [Chunk(chunk)])[1..] == frames[1..] + [Chunk(chunk)];
      assert (content + chunk)[n..] == content[n..] + chunk;
    }
  }

  lemma BrokerStepKeeps(w: World, c: Connection, step: Step)
    requires InStep(w, c) && Enabled(w, c, step) && !step.Work?
    ensures InStep(w, Next(w, c, step))
  {
    hide Matching;
    hide Acceptable;
    hide AnswersScan;
    match step
    case Ask(id, size) =>
      assert (c.up + [Request(id, size)])[1..] == [];
    case Send(chunk) =>
      SendKeeps(w, c, chunk);
      hide InStep;
    case _ =>
  }

  lemma SendKeeps(w: World, c: Connection, chunk: Bytes)
    requires InStep(w, c) && Enabled(w, c, Send(chunk))
    ensures InStep(w, Next(w, c, Send(chunk)))
  {
    hide AnswersScan;
    hide Acceptable;
    var sent := c.broker.sent;
    if |sent| + |chunk| <= c.broker.size {
      match c.worker
      case AwaitRequest =>
        if c.up != [] {
          CarriesMore(w, c.up[1..], sent, chunk);
          assert (c.up + [Chunk(chunk)])[1..] == c.up[1..] + [Chunk(chunk)];
        }
      case Reading(_, _, got) =>
        CarriesMore(w, c.up, sent[|got|..], chunk);
        assert (sent + chunk)[|got|..] == sent[|got|..] + chunk;
    }
    hide Carries;
  }

  lemma WorkKeeps(w: World, c: Connection, body: Body)
    requires InStep(w, c) && Enabled(w, c, Work(body)) && !c.broker.Closed?
    ensures InStep(w, WorkerStep(w, c, body))
  {
    hide AnswersScan;
    if c.worker.Reading? {
      var sent := c.broker.sent;
      var got := c.worker.got;
      if |got| >= c.worker.size {
        assert sent[|got|..] == [] && got == sent;
        assert c.up == [];
      } else {
        assert sent[|got|..][|c.up[0].bytes|..] == sent[|got + c.up[0].bytes|..];
      }
    }
  }

  lemma {:induction false} EveryRunKeepsStep(w: World, c: Connection, steps: seq<Step>)
    requires InStep(w, c) && Feasible(w, c, steps)
    ensures InStep(w, Run(w, c, steps))
    decreases |steps|
  {
    hide InStep;
    if steps != [] {
      OneStepKeeps(w, c, steps[0]);
      hide Next;
      EveryRunKeepsStep(w, Next(w, c, steps[0]), steps[1..]);
    }
  }

  lemma OneStepKeeps(w: World, c: Connection, step: Step)
    requires InStep(w, c) && Enabled(w, c, step)
    ensures InStep(w, Next(w, c, step))
  {
    if c.broker.Closed? {
      assert Next(w, c, step).broker.Closed?;
    } else if step.Work? {
      WorkKeeps(w, c, step.body);
    } else {
      BrokerStepKeeps(w, c, step);
    }
  }

  ghost predicate Reachable(w: World, c: Connection) {
    exists steps :: Feasible(w, OPENED, steps) && c == Run(w, OPENED, steps)
  }

  lemma ReachableInStep(w: World, c: Connection)
    requires Reachable(w, c)
    ensures InStep(w, c)
  {
    var steps :| Feasible(w, OPENED, steps) && c == Run(w, OPENED, steps);
    EveryRunKeepsStep(w, OPENED, steps);
  }

  // ---------- main results ----------

  /** Broker and worker are never both waiting for each other: whenever the broker waits on an
      empty channel, the worker can act. */
  lemma NoDeadlock(w: World, c: Connection)
    requires Reachable(w, c)
    requires c.broker.AwaitHello? || c.broker.AwaitAck? || c.broker.AwaitResponse?
    requires c.down == []
    ensures WorkerCanStep(c)
  {
    ReachableInStep(w, c);
    hide Reachable;
    hide AnswersScan;
    if c.broker.AwaitResponse? && c.worker.Reading? && |c.worker.got| < c.worker.size {
      assert c.broker.sent[|c.worker.got|..] != [];
    }
  }

  /** While the connection is open the worker never exits, never reports a stream error and never
      hits one of its error branches. */
  lemma WorkerNeverFails(w: World, c: Connection, body: Body)
    requires Reachable(w, c) && Enabled(w, c, Work(body)) && !c.broker.Closed?
    ensures var n := WorkerStep(w, c, body);
            !n.worker.Exited? && (n.down == c.down || n.down == [Hello] || n.down == [Acknowledged]
                                  || (|n.down| == 1 && n.down[0].Response? && n.down[0].body == body && body.Scan?))
    ensures c.worker.Reading? && |c.worker.got| < c.worker.size ==>
              c.up != [] && c.up[0].Chunk? && 1 <= |c.up[0].bytes| && |c.up[0].bytes| <= w.chunkBytes
              && |c.worker.got| + |c.up[0].bytes| <= c.worker.size
  {
    ReachableInStep(w, c);
    hide Reachable;
    hide Matching;
  }

  /** The worker reports a stream error exactly for a request over the size policy and for a frame that
      is no chunk, empty, longer than a chunk may be, or longer than what is left; any other chunk it
      adds to what it has read. */
  lemma WorkerErrsExactly(w: World, c: Connection, body: Body)
    requires WorkerCanStep(c)
    requires c.worker.AwaitRequest? || (c.worker.Reading? && |c.worker.got| < c.worker.size)
    ensures var n := WorkerStep(w, c, body);
            && (n.down != c.down <==>
                  if c.worker.AwaitRequest? then c.up[0].Request? && c.up[0].size > w.maxFileBytes
                  else !c.up[0].Chunk? || c.up[0].bytes == [] || |c.up[0].bytes| > w.chunkBytes
                       || |c.worker.got| + |c.up[0].bytes| > c.worker.size)
            && (n.down != c.down ==>
                  n.worker == AwaitRequest
                  && n.down == c.down + [Response(if c.worker.Reading? then c.worker.id else c.up[0].id, Error)])
            && (n.down == c.down && c.worker.Reading? ==>
                  n.worker == Reading(c.worker.id, c.worker.size, c.worker.got + c.up[0].bytes))
            && n.up == c.up[1..]
  {
  }

  /** What the broker may do: ask for any file within the policy, send what a read yields, come to the end of
      the file, and give up at any point. */
  lemma BrokerMay(w: World, c: Connection, id: RequestId, size: nat, chunk: Bytes)
    ensures c.broker.Idle? && size <= w.maxFileBytes ==> Enabled(w, c, Ask(id, size))
    ensures c.broker.Streaming? && chunk != [] && |chunk| <= w.chunkBytes ==> Enabled(w, c, Send(chunk))
    ensures c.broker.Streaming? ==> Enabled(w, c, EndOfFile(true)) && Enabled(w, c, EndOfFile(false))
    ensures c.broker.AwaitResponse? && c.down != [] ==> Enabled(w, c, TakeResponse)
    ensures !c.broker.Closed? ==> Enabled(w, c, GiveUp)
  {
  }

  /** Each side of the handshake goes on exactly if the frame it gets is the one it waits for; else the broker
      gives the connection up, and the worker exits, as it does for any frame that is no request. */
  lemma HandshakeIsChecked(w: World, c: Connection, body: Body)
    ensures Enabled(w, c, TakeHello) ==>
              var n := Next(w, c, TakeHello);
              if c.down[0] == Hello then n.broker == AwaitAck && n.up == c.up + [Configuration] else n.broker.Closed?
    ensures Enabled(w, c, TakeAck) ==>
              var n := Next(w, c, TakeAck);
              if c.down[0] == Acknowledged then n.broker == Idle && n.up == c.up else n.broker.Closed?
    ensures WorkerCanStep(c) && c.worker.AwaitConfiguration? ==>
              var n := WorkerStep(w, c, body);
              if c.up[0] == Configuration then n.worker == AwaitRequest && n.down == c.down + [Acknowledged]
              else n.worker == Exited && n.down == c.down
    ensures WorkerCanStep(c) && c.worker.AwaitRequest? ==>
              (WorkerStep(w, c, body).worker == Exited <==> !c.up[0].Request?)
  {
  }

  /** While the broker streams a file it goes on exactly as long as the file keeps to its size and to the
      policy, and it waits for an answer exactly if the file ended at its size with its metadata
      unchanged. */
  lemma BrokerChecksTheFile(w: World, c: Connection, step: Step)
    requires Enabled(w, c, step) && (step.Send? || step.EndOfFile?)
    ensures var n, b := Next(w, c, step), c.broker;
            && (step.Send? && |b.sent| + |step.chunk| <= b.size && |b.sent| + |step.chunk| <= w.maxFileBytes ==>
                  n.broker == Streaming(b.id, b.size, b.sent + step.chunk) && n.up == c.up + [Chunk(step.chunk)])
            && (step.EndOfFile? && step.sameStat && |b.sent| == b.size ==>
                  n.broker == AwaitResponse(b.id, b.size, b.sent) && n.up == c.up)
            && (n.broker.Closed? <==>
                  if step.Send? then |b.sent| + |step.chunk| > b.size || |b.sent| + |step.chunk| > w.maxFileBytes
                  else !step.sameStat || |b.sent| != b.size)
            && (n.broker.Closed? ==> n.up == c.up + [Shutdown]) && n.down == c.down && n.last == c.last
  {
  }

  /** Whatever frame arrives, the broker takes it as the answer exactly if it can be believed, and gives
      the connection up otherwise. */
  lemma OnlyBelievableAnswersAreTaken(w: World, c: Connection)
    requires Enabled(w, c, TakeResponse) && |c.broker.sent| == c.broker.size
    ensures var n := Next(w, c, TakeResponse);
            if Believable(w, c.down[0], c.broker.id, c.broker.sent)
            then n.broker.Idle? && n.last == Some((c.broker.sent, c.down[0].body)) && n.up == c.up
            else n.broker.Closed? && n.last == c.last
  {
    AcceptableMeans(w, c.down[0], c.broker.id, c.broker.sent);
    hide Acceptable;
    hide Believable;
  }

  /** What may be believed of an answer, whoever sent it: it names this request, agrees with what the
      broker itself sent, names known rules once each, and stays within the bounds of a report. */
  ghost predicate Believable(w: World, f: Frame, id: RequestId, content: Bytes) {
    && f.Response? && f.id == id && f.body.Scan?
    && f.body.sha == w.digest(content) && f.body.bytesRead == |content|
    && (forall i :: i in f.body.ids ==> i in (set r | r in w.rules :: r.id))
    && |set i | i in f.body.ids| == |f.body.ids|
    && |f.body.observations| <= 32
    && forall o :: o in f.body.observations ==>
         && !o.eligible && o.severity in {Info, Low, Medium, High, Critical}
         && 1 <= |o.provider| && |o.provider| <= 40 && 1 <= |o.category| && |o.category| <= 80
         && 1 <= |o.summary| && |o.summary| <= 300
  }

  lemma {:induction false} DistinctIsCounted(ids: seq<string>)
    ensures |set i | i in ids| == |ids| <==> forall i, j :: 0 <= i < j < |ids| ==> ids[i] != ids[j]
    ensures |set i | i in ids| <= |ids|
  {
    if ids != [] {
      var front, last := ids[..|ids| - 1], ids[|ids| - 1];
      assert ids == front + [last];
      DistinctIsCounted(front);
      assert (set i | i in ids) == (set i | i in front) + {last};
    }
  }

  lemma AcceptableMeans(w: World, f: Frame, id: RequestId, content: Bytes)
    ensures Acceptable(w, f, id, |content|, w.digest(content)) <==> Believable(w, f, id, content)
  {
    if f.Response? && f.body.Scan? {
      DistinctIsCounted(f.body.ids);
      forall i | i in f.body.ids
        ensures i in (set r | r in w.rules :: r.id) <==> exists r :: r in w.rules && r.id == i
      {
      }
    }
  }

  /** With this worker every answer the broker takes is accepted, and a completed inspection leaves
      both sides idle on empty channels with the digest and the matches of the streamed content. */
  lemma InspectionSucceeds(w: World, c: Connection)
    requires Reachable(w, c) && Enabled(w, c, TakeResponse)
    ensures var n := Next(w, c, TakeResponse);
            && n.broker.Idle? && n.worker.AwaitRequest? && n.up == [] && n.down == []
            && n.last.Some? && n.last.value.0 == c.broker.sent
            && n.last.value.1.sha == w.digest(c.broker.sent) && n.last.value.1.bytesRead == c.broker.size
            && forall i :: i in n.last.value.1.ids <==> i in Matching(w.rules, c.broker.sent)
  {
    ReachableInStep(w, c);
    hide Reachable;
    AnswerIsAccepted(w, c);
    hide Matching;
    hide Acceptable;
  }

  lemma MatchedIsKnown(w: World, content: Bytes, i: string)
    requires i in Matching(w.rules, content)
    ensures exists r :: r in w.rules && r.id == i
  {
  }

  /** A connection that was given up is never used again: no later step of the broker touches it. */
  lemma ClosedStaysClosed(w: World, c: Connection, step: Step)
    requires c.broker.Closed? && Enabled(w, c, step)
    ensures step.Work? && Next(w, c, step).broker.Closed? && Next(w, c, step).last == c.last
  {
  }

  // ---------- a broker over many connections ----------

  /** One accepted answer: on which connection, for which request and content, and when the request
      was made and the answer was sent. */
  datatype Call = Call(connection: nat, id: RequestId, content: Bytes, asked: nat, answered: nat, body: Body)

  /** All connections a broker ever opened, the last being the one in use, and for every frame still
      on its way back when it was sent. `asked` is when the current request was made; workers of
      abandoned connections may still run. */
  datatype Service = Service(
    connections: seq<Connection>, stamps: seq<seq<nat>>, clock: nat, asked: nat, served: nat, calls: seq<Call>)

  const IDLE_SERVICE := Service([], [], 0, 0, 0, [])

  datatype Action =
    | WorkerActs(which: nat, body: Body)
    | BrokerActs(step: Step)
    | Restart

  function InUse(s: Service): Connection
    requires s.connections != []
  {
    s.connections[|s.connections| - 1]
  }

  /** A worker is replaced between requests or after a failure; a request needs one that has not yet
      served its share. */
  ghost predicate CanAct(w: World, maxRequests: nat, s: Service, a: Action) {
    |s.stamps| == |s.connections|
    && match a
       case WorkerActs(which, body) => which < |s.connections| && Enabled(w, s.connections[which], Work(body))
       case BrokerActs(step) =>
         && s.connections != [] && !step.Work? && Enabled(w, InUse(s), step)
         && (step.Ask? ==> s.served < maxRequests || s.served == 0)
       case Restart => s.connections == [] || InUse(s).broker.Idle? || InUse(s).broker.Closed?
  }

  ghost function Act(w: World, maxRequests: nat, s: Service, a: Action): Service
    requires CanAct(w, maxRequests, s, a)
  {
    match a
    case WorkerActs(which, body) => Worked(s, which, WorkerStep(w, s.connections[which], body))
    case BrokerActs(step) => Brokered(w, s, step)
    case Restart =>
      var front := if s.connections == [] then [] else s.connections[|s.connections| - 1 := Close(InUse(s))];
      s.(connections := front + [OPENED], stamps := s.stamps + [[]], served := 0)
  }

  function Worked(s: Service, which: nat, c: Connection): Service
    requires which < |s.connections| == |s.stamps|
  {
    var sends := |c.down| > |s.connections[which].down|;
    s.(connections := s.connections[which := c],
       stamps := s.stamps[which := if sends then s.stamps[which] + [s.clock] else s.stamps[which]],
       clock := s.clock + 1)
  }

  ghost function Brokered(w: World, s: Service, step: Step): Service
    requires s.connections != [] && |s.stamps| == |s.connections| && !step.Work? && Enabled(w, InUse(s), step)
  {
    var last := |s.connections| - 1;
    var c, n := InUse(s), Next(w, InUse(s), step);
    var taken := step.TakeHello? || step.TakeAck? || step.TakeResponse?;
    var stamps := if taken && s.stamps[last] != [] then s.stamps[last := s.stamps[last][1..]] else s.stamps;
    var t := s.(connections := s.connections[last := n], stamps := stamps,
                served := if n.broker.Closed? then 0 else s.served);
    if step.Ask? then t.(asked := s.clock, clock := s.clock + 1)
    else if step.TakeResponse? && n.broker.Idle? && s.stamps[last] != [] && c.down[0].Response? then
      t.(served := s.served + 1,
         calls := s.calls + [Call(last, c.broker.id, c.broker.sent, s.asked, s.stamps[last][0], c.down[0].body)])
    else t
  }

  ghost predicate CanRun(w: World, maxRequests: nat, s: Service, actions: seq<Action>)
    decreases |actions|
  {
    actions == [] || (CanAct(w, maxRequests, s, actions[0])
                      && CanRun(w, maxRequests, Act(w, maxRequests, s, actions[0]), actions[1..]))
  }

  ghost function Serve(w: World, maxRequests: nat, s: Service, actions: seq<Action>): Service
    requires CanRun(w, maxRequests, s, actions)
    decreases |actions|
  {
    if actions == [] then s else Serve(w, maxRequests, Act(w, maxRequests, s, actions[0]), actions[1..])
  }

  predicate Waiting(c: Connection) {
    c.broker.Streaming? || c.broker.AwaitResponse?
  }

  ghost predicate ConnectionsInv(w: World, s: Service) {
    && |s.stamps| == |s.connections|
    && (forall i :: 0 <= i < |s.connections| ==> InStep(w, s.connections[i]))
    && (forall i :: 0 <= i < |s.connections| - 1 ==> s.connections[i].broker.Closed?)
  }

  ghost predicate StampsInv(s: Service) {
    && |s.stamps| == |s.connections|
    && (forall i :: 0 <= i < |s.connections| ==> |s.stamps[i]| == |s.connections[i].down|)
    && (forall i, k :: 0 <= i < |s.stamps| && 0 <= k < |s.stamps[i]| ==> s.stamps[i][k] < s.clock)
    && (s.connections != [] && Waiting(InUse(s)) ==>
          s.asked < s.clock && AllLater(s.asked, s.stamps[|s.stamps| - 1]))
  }

  predicate AllLater(asked: nat, stamps: seq<nat>) {
    forall k :: 0 <= k < |stamps| ==> asked < stamps[k]
  }

  /** Every accepted answer was sent after its request, on the connection of that request, by a worker
      that had read exactly the content of that request; and before the next request was made. */
  ghost predicate CallsInv(w: World, s: Service) {
    && (forall c :: c in s.calls ==> c.asked < c.answered < s.clock && AnswersScan(w, c.content, c.body))
    && (forall i, j :: 0 <= i < j < |s.calls| ==> s.calls[i].answered < s.calls[j].asked)
    && (s.connections != [] && Waiting(InUse(s)) ==> forall c :: c in s.calls ==> c.answered < s.asked)
  }

  ghost predicate ServiceInv(w: World, s: Service) {
    ConnectionsInv(w, s) && StampsInv(s) && CallsInv(w, s)
  }

  lemma WorkerKeepsService(w: World, maxRequests: nat, s: Service, which: nat, body: Body)
    requires ServiceInv(w, s) && CanAct(w, maxRequests, s, WorkerActs(which, body))
    ensures ServiceInv(w, Act(w, maxRequests, s, WorkerActs(which, body)))
  {
    var c := s.connections[which];
    OneStepKeeps(w, c, Work(body));
    assert Next(w, c, Work(body)) == WorkerStep(w, c, body);
    WorkerSends(w, c, body);
    hide InStep;
    hide WorkerStep;
    hide AnswersScan;
    hide Next;
    hide Enabled;
    var n := WorkerStep(w, c, body);
    WorkedStamps(s, which, n);
    WorkedCalls(w, s, which, n);
    hide StampsInv;
    hide CallsInv;
  }

  lemma WorkedStamps(s: Service, which: nat, c: Connection)
    requires StampsInv(s) && which < |s.connections| && c.broker == s.connections[which].broker
    requires |c.down| == |s.connections[which].down| || |c.down| == |s.connections[which].down| + 1
    ensures StampsInv(Worked(s, which, c))
  {
  }

  lemma WorkedCalls(w: World, s: Service, which: nat, c: Connection)
    requires CallsInv(w, s) && which < |s.connections| == |s.stamps| && c.broker == s.connections[which].broker
    ensures CallsInv(w, Worked(s, which, c))
  {
    hide AnswersScan;
  }

  lemma WorkerSends(w: World, c: Connection, body: Body)
    requires WorkerCanStep(c)
    ensures var n := WorkerStep(w, c, body); n.broker == c.broker && (n.down == c.down || |n.down| == |c.down| + 1)
  {
  }

  lemma RestartKeepsService(w: World, maxRequests: nat, s: Service)
    requires ServiceInv(w, s) && CanAct(w, maxRequests, s, Restart)
    ensures ServiceInv(w, Act(w, maxRequests, s, Restart))
  {
    hide AnswersScan;
    hide Carries;
    assert InStep(w, OPENED);
    forall c: Connection ensures InStep(w, Close(c)) {}
    hide InStep;
  }

  /** The frame that the broker reads, and what becomes of the channel. */
  lemma BrokerReads(w: World, c: Connection, step: Step)
    requires InStep(w, c) && Enabled(w, c, step) && !step.Work?
    ensures var n := Next(w, c, step);
            && (if step.TakeHello? || step.TakeAck? || step.TakeResponse? then n.down == c.down[1..]
                else n.down == c.down)
            && (step.Ask? ==> c.down == [])
            && (Waiting(n) ==> Waiting(c) || step.Ask?)
            && (step.TakeResponse? ==>
                  n.broker.Idle? && c.down[0].Response? && AnswersScan(w, c.broker.sent, c.down[0].body))
  {
    if step.TakeResponse? {
      AnswerIsAccepted(w, c);
    }
    hide AnswersScan;
    hide Carries;
    hide Acceptable;
  }

  lemma AnswerIsAccepted(w: World, c: Connection)
    requires InStep(w, c) && Enabled(w, c, TakeResponse)
    ensures c.down[0].Response? && AnswersScan(w, c.broker.sent, c.down[0].body)
    ensures Acceptable(w, c.down[0], c.broker.id, c.broker.size, w.digest(c.broker.sent))
  {
    forall i | i in c.down[0].body.ids ensures exists r :: r in w.rules && r.id == i {
      MatchedIsKnown(w, c.broker.sent, i);
    }
    hide Matching;
    hide Carries;
  }

  lemma BrokerKeepsService(w: World, maxRequests: nat, s: Service, step: Step)
    requires ServiceInv(w, s) && CanAct(w, maxRequests, s, BrokerActs(step))
    ensures ServiceInv(w, Act(w, maxRequests, s, BrokerActs(step)))
  {
    OneStepKeeps(w, InUse(s), step);
    BrokerReads(w, InUse(s), step);
    hide InStep;
    hide Next;
    hide Enabled;
    hide AnswersScan;
    hide Waiting;
    BrokeredConnections(w, s, step);
    BrokeredStamps(w, s, step);
    BrokeredCalls(w, s, step);
    hide Brokered;
    hide ConnectionsInv;
    hide StampsInv;
    hide CallsInv;
  }

  lemma BrokeredConnections(w: World, s: Service, step: Step)
    requires ConnectionsInv(w, s) && s.connections != [] && !step.Work? && Enabled(w, InUse(s), step)
    requires InStep(w, Next(w, InUse(s), step))
    ensures ConnectionsInv(w, Brokered(w, s, step))
  {
    hide InStep;
    hide Next;
    hide Enabled;
  }

  /** What a broker's step does to the channel it reads. */
  ghost predicate ReadsChannel(c: Connection, step: Step, n: Connection) {
    && (if step.TakeHello? || step.TakeAck? || step.TakeResponse? then c.down != [] && n.down == c.down[1..]
        else n.down == c.down)
    && (step.Ask? ==> c.down == [])
    && (Waiting(n) ==> Waiting(c) || step.Ask?)
  }

  lemma BrokeredStamps(w: World, s: Service, step: Step)
    requires StampsInv(s) && s.connections != [] && !step.Work? && Enabled(w, InUse(s), step)
    requires InStep(w, InUse(s))
    ensures StampsInv(Brokered(w, s, step))
  {
    BrokerReads(w, InUse(s), step);
    hide InStep;
    assert ReadsChannel(InUse(s), step, Next(w, InUse(s), step));
    hide Next;
    hide Enabled;
    hide Waiting;
    hide AnswersScan;
  }

  lemma BrokeredCalls(w: World, s: Service, step: Step)
    requires StampsInv(s) && CallsInv(w, s) && s.connections != [] && !step.Work? && Enabled(w, InUse(s), step)
    requires InStep(w, InUse(s))
    ensures CallsInv(w, Brokered(w, s, step))
  {
    BrokerReads(w, InUse(s), step);
    hide InStep;
    assert ReadsChannel(InUse(s), step, Next(w, InUse(s), step));
    assert step.TakeResponse? ==> Waiting(InUse(s)) && !Waiting(Next(w, InUse(s), step));
    hide Next;
    hide Enabled;
    hide Waiting;
    hide AnswersScan;
  }

  lemma {:induction false} EveryServiceRunKeepsInv(w: World, maxRequests: nat, s: Service, actions: seq<Action>)
    requires ServiceInv(w, s) && CanRun(w, maxRequests, s, actions)
    ensures ServiceInv(w, Serve(w, maxRequests, s, actions))
    decreases |actions|
  {
    hide ServiceInv;
    hide Act;
    if actions != [] {
      match actions[0] {
        case WorkerActs(which, body) => WorkerKeepsService(w, maxRequests, s, which, body);
        case BrokerActs(step) => BrokerKeepsService(w, maxRequests, s, step);
        case Restart => RestartKeepsService(w, maxRequests, s);
      }
      EveryServiceRunKeepsInv(w, maxRequests, Act(w, maxRequests, s, actions[0]), actions[1..]);
    }
    hide CanAct;
  }

  /** No frame of one request is ever read as the answer to another, across any number of failures
      and restarts: every accepted answer was sent on the connection in use after its own request and
      before the next one, by a worker that had read exactly the content of that request. */
  lemma AnswersBelongToRequests(w: World, maxRequests: nat, actions: seq<Action>)
    requires CanRun(w, maxRequests, IDLE_SERVICE, actions)
    ensures var calls := Serve(w, maxRequests, IDLE_SERVICE, actions).calls;
            && (forall c :: c in calls ==> c.asked < c.answered && AnswersScan(w, c.content, c.body))
            && (forall i, j :: 0 <= i < j < |calls| ==> calls[i].answered < calls[j].asked)
  {
    EveryServiceRunKeepsInv(w, maxRequests, IDLE_SERVICE, actions);
    hide Serve;
    hide ConnectionsInv;
    hide StampsInv;
    hide AnswersScan;
  }

  // ---------- how long one worker serves ----------

  function CallsOn(calls: seq<Call>, connection: nat): nat {
    if calls == [] then 0
    else CallsOn(calls[..|calls| - 1], connection) + if calls[|calls| - 1].connection == connection then 1 else 0
  }

  ghost predicate ShareInv(maxRequests: nat, s: Service) {
    && |s.stamps| == |s.connections|
    && (forall c :: c in s.calls ==> c.connection < |s.connections|)
    && (forall i: nat :: CallsOn(s.calls, i) <= if maxRequests == 0 then 1 else maxRequests)
    && (s.connections != [] && !InUse(s).broker.Closed? ==> CallsOn(s.calls, |s.connections| - 1) == s.served)
    && (s.connections != [] && Waiting(InUse(s)) ==> s.served < maxRequests || s.served == 0)
  }

  lemma {:induction false} NoneBefore(calls: seq<Call>, connection: nat)
    requires forall c :: c in calls ==> c.connection < connection
    ensures CallsOn(calls, connection) == 0
  {
    if calls != [] {
      assert calls[|calls| - 1] in calls;
      NoneBefore(calls[..|calls| - 1], connection);
    }
  }

  lemma OneMoreCall(calls: seq<Call>, c: Call)
    ensures forall i: nat :: CallsOn(calls + [c], i) == CallsOn(calls, i) + if c.connection == i then 1 else 0
  {
    assert (calls + [c])[..|calls|] == calls;
  }

  lemma ActKeepsShare(w: World, maxRequests: nat, s: Service, a: Action)
    requires ServiceInv(w, s) && ShareInv(maxRequests, s) && CanAct(w, maxRequests, s, a)
    ensures ShareInv(maxRequests, Act(w, maxRequests, s, a))
  {
    match a
    case Restart =>
      NoneBefore(s.calls, |s.connections|);
      hide InStep;
      hide StampsInv;
      hide CallsInv;
    case WorkerActs(which, body) =>
      WorkerSends(w, s.connections[which], body);
      hide WorkerStep;
      hide InStep;
      hide Enabled;
      hide StampsInv;
      hide CallsInv;
    case BrokerActs(step) => BrokerKeepsShare(w, maxRequests, s, step);
  }

  lemma BrokerKeepsShare(w: World, maxRequests: nat, s: Service, step: Step)
    requires ServiceInv(w, s) && ShareInv(maxRequests, s) && CanAct(w, maxRequests, s, BrokerActs(step))
    ensures ShareInv(maxRequests, Act(w, maxRequests, s, BrokerActs(step)))
  {
    var n := Brokered(w, s, step);
    BrokeredShare(w, s, step);
    BrokerStays(w, InUse(s), step);
    hide *;
    assert n == Act(w, maxRequests, s, BrokerActs(step)) by { ActIsBrokered(w, maxRequests, s, step); }
    ShareAfter(maxRequests, s, n, step);
  }

  lemma ActIsBrokered(w: World, maxRequests: nat, s: Service, step: Step)
    requires CanAct(w, maxRequests, s, BrokerActs(step))
    ensures Act(w, maxRequests, s, BrokerActs(step)) == Brokered(w, s, step)
  {
    hide Brokered;
    hide Enabled;
  }

  /** What a broker's step does to the count of requests. */
  lemma BrokeredShare(w: World, s: Service, step: Step)
    requires s.connections != [] && |s.stamps| == |s.connections| && !step.Work? && Enabled(w, InUse(s), step)
    ensures var n := Brokered(w, s, step);
            && |n.connections| == |n.stamps| == |s.connections| && InUse(n) == Next(w, InUse(s), step)
            && (if n.calls == s.calls then n.served == (if InUse(n).broker.Closed? then 0 else s.served)
                                           || (step.TakeResponse? && InUse(n).broker.Closed?)
                else step.TakeResponse? && !InUse(n).broker.Closed? && n.served == s.served + 1
                     && |n.calls| == |s.calls| + 1 && n.calls[..|s.calls|] == s.calls
                     && n.calls[|s.calls|].connection == |s.connections| - 1)
  {
    hide Next;
    hide Enabled;
  }

  lemma ShareAfter(maxRequests: nat, s: Service, n: Service, step: Step)
    requires ShareInv(maxRequests, s) && s.connections != [] && |n.connections| == |n.stamps| == |s.connections|
    requires !InUse(s).broker.Closed? && (step.Ask? ==> s.served < maxRequests || s.served == 0)
    requires step.TakeResponse? ==> Waiting(InUse(s)) && !Waiting(InUse(n))
    requires Waiting(InUse(n)) ==> Waiting(InUse(s)) || step.Ask?
    requires if n.calls == s.calls then InUse(n).broker.Closed? || n.served == s.served
             else step.TakeResponse? && n.served == s.served + 1 && |n.calls| == |s.calls| + 1
                  && n.calls[..|s.calls|] == s.calls && n.calls[|s.calls|].connection == |s.connections| - 1
    ensures ShareInv(maxRequests, n)
  {
    if n.calls != s.calls {
      var c := n.calls[|s.calls|];
      assert n.calls == s.calls + [c];
      OneMoreCall(s.calls, c);
    }
    hide CallsOn;
  }

  lemma BrokerStays(w: World, c: Connection, step: Step)
    requires Enabled(w, c, step) && !step.Work?
    ensures !c.broker.Closed? && (step.TakeResponse? ==> Waiting(c) && !Waiting(Next(w, c, step)))
    ensures Waiting(Next(w, c, step)) ==> Waiting(c) || step.Ask?
  {
    hide Acceptable;
  }

  lemma {:induction false} ServesItsShare(w: World, maxRequests: nat, s: Service, actions: seq<Action>)
    requires ServiceInv(w, s) && ShareInv(maxRequests, s) && CanRun(w, maxRequests, s, actions)
    ensures ShareInv(maxRequests, Serve(w, maxRequests, s, actions))
    decreases |actions|
  {
    hide ServiceInv;
    hide ShareInv;
    hide Act;
    if actions != [] {
      ActKeepsShare(w, maxRequests, s, actions[0]);
      EveryServiceRunKeepsInv(w, maxRequests, s, [actions[0]]);
      assert [actions[0]][1..] == [];
      ServesItsShare(w, maxRequests, Act(w, maxRequests, s, actions[0]), actions[1..]);
    }
    hide CanAct;
  }

  /** No worker serves more requests than its share, but always at least one is allowed. */
  lemma WorkersAreReplaced(w: World, maxRequests: nat, actions: seq<Action>, connection: nat)
    requires CanRun(w, maxRequests, IDLE_SERVICE, actions)
    ensures CallsOn(Serve(w, maxRequests, IDLE_SERVICE, actions).calls, connection)
            <= if maxRequests == 0 then 1 else maxRequests
  {
    ServesItsShare(w, maxRequests, IDLE_SERVICE, actions);
    hide Serve;
  }

  // ---------- a broker can always go on ----------

  /** A fresh worker: it is started and configured over a connection of its own. */
  function Handshake(connection: nat, body: Body): seq<Action> {
    [Restart, WorkerActs(connection, body), BrokerActs(TakeHello), WorkerActs(connection, body), BrokerActs(TakeAck)]
  }

  lemma OneAct(w: World, maxRequests: nat, s: Service, a: Action, rest: seq<Action>, n: Service)
    requires CanAct(w, maxRequests, s, a) && n == Act(w, maxRequests, s, a) && CanRun(w, maxRequests, n, rest)
    ensures CanRun(w, maxRequests, s, [a] + rest)
    ensures Serve(w, maxRequests, s, [a] + rest) == Serve(w, maxRequests, n, rest)
  {
    hide CanAct;
    hide Act;
    assert ([a] + rest)[1..] == rest;
  }

  /** A service that uses one connection, the last, in this state and with these stamps. */
  predicate Uses(s: Service, connection: nat, c: Connection, stamps: seq<nat>) {
    && |s.connections| == |s.stamps| == connection + 1
    && s.connections[connection] == c && s.stamps[connection] == stamps
  }

  lemma WorkerTurn(w: World, maxRequests: nat, s: Service, connection: nat, c: Connection, n: Connection, body: Body)
    requires Uses(s, connection, c, []) && c.down == []
    requires Enabled(w, c, Work(body)) && WorkerStep(w, c, body) == n && |n.down| == 1
    ensures CanAct(w, maxRequests, s, WorkerActs(connection, body))
    ensures var t := Act(w, maxRequests, s, WorkerActs(connection, body));
            Uses(t, connection, n, [s.clock]) && t.calls == s.calls && t.served == s.served
  {
    hide Enabled;
    hide WorkerStep;
  }

  lemma BrokerTurn(w: World, maxRequests: nat, s: Service, connection: nat, c: Connection, n: Connection, at: nat,
                   step: Step)
    requires Uses(s, connection, c, [at]) && (step.TakeHello? || step.TakeAck?)
    requires Enabled(w, c, step) && Next(w, c, step) == n && !n.broker.Closed?
    ensures CanAct(w, maxRequests, s, BrokerActs(step))
    ensures var t := Act(w, maxRequests, s, BrokerActs(step));
            Uses(t, connection, n, []) && t.calls == s.calls && t.served == s.served
  {
    hide Enabled;
    hide Next;
  }

  lemma HandshakeSteps(w: World, body: Body)
    ensures var b := OPENED.(worker := AwaitConfiguration, down := [Hello]);
            var c := OPENED.(broker := AwaitAck, worker := AwaitConfiguration, up := [Configuration]);
            var d := OPENED.(broker := AwaitAck, worker := AwaitRequest, down := [Acknowledged]);
            var e := OPENED.(broker := Idle, worker := AwaitRequest);
            && Enabled(w, OPENED, Work(body)) && WorkerStep(w, OPENED, body) == b
            && Enabled(w, b, TakeHello) && Next(w, b, TakeHello) == c
            && Enabled(w, c, Work(body)) && WorkerStep(w, c, body) == d
            && Enabled(w, d, TakeAck) && Next(w, d, TakeAck) == e
  {
    hide AnswersScan;
  }

  /** However the last worker ended, and between any two requests, the broker can replace it, and the new
      one is ready for requests, none of which it has served. */
  lemma BrokerCanGoOn(w: World, maxRequests: nat, s: Service, body: Body)
    requires ServiceInv(w, s) && (s.connections == [] || InUse(s).broker.Closed? || InUse(s).broker.Idle?)
    ensures var actions := Handshake(|s.connections|, body);
            && CanRun(w, maxRequests, s, actions)
            && var n := Serve(w, maxRequests, s, actions);
               && n.connections != [] && InUse(n) == OPENED.(broker := Idle, worker := AwaitRequest)
               && n.calls == s.calls && n.served == 0
  {
    var k := |s.connections|;
    assert |s.stamps| == k by { hide InStep; hide StampsInv; hide CallsInv; }
    hide ServiceInv;
    HandshakeSteps(w, body);
    hide Enabled;
    hide Next;
    hide WorkerStep;
    var b := OPENED.(worker := AwaitConfiguration, down := [Hello]);
    var c := OPENED.(broker := AwaitAck, worker := AwaitConfiguration, up := [Configuration]);
    var d := OPENED.(broker := AwaitAck, worker := AwaitRequest, down := [Acknowledged]);
    var e := OPENED.(broker := Idle, worker := AwaitRequest);
    var s0 := Act(w, maxRequests, s, Restart);
    assert Uses(s0, k, OPENED, []) && s0.calls == s.calls && s0.served == 0;
    WorkerTurn(w, maxRequests, s0, k, OPENED, b, body);
    var s1 := Act(w, maxRequests, s0, WorkerActs(k, body));
    BrokerTurn(w, maxRequests, s1, k, b, c, s0.clock, TakeHello);
    var s2 := Act(w, maxRequests, s1, BrokerActs(TakeHello));
    WorkerTurn(w, maxRequests, s2, k, c, d, body);
    var s3 := Act(w, maxRequests, s2, WorkerActs(k, body));
    BrokerTurn(w, maxRequests, s3, k, d, e, s2.clock, TakeAck);
    var s4 := Act(w, maxRequests, s3, BrokerActs(TakeAck));
    hide *;
    assert InUse(s4) == e && s4.connections != [] by { UsesIsInUse(s4, k, e); }
    Along(w, maxRequests, s, body, k, s0, s1, s2, s3, s4);
  }

  lemma UsesIsInUse(s: Service, k: nat, c: Connection)
    requires Uses(s, k, c, [])
    ensures s.connections != [] && InUse(s) == c
  {
  }

  lemma Along(w: World, maxRequests: nat, s: Service, body: Body, k: nat,
              s0: Service, s1: Service, s2: Service, s3: Service, s4: Service)
    requires CanAct(w, maxRequests, s, Restart) && s0 == Act(w, maxRequests, s, Restart)
    requires CanAct(w, maxRequests, s0, WorkerActs(k, body)) && s1 == Act(w, maxRequests, s0, WorkerActs(k, body))
    requires CanAct(w, maxRequests, s1, BrokerActs(TakeHello)) && s2 == Act(w, maxRequests, s1, BrokerActs(TakeHello))
    requires CanAct(w, maxRequests, s2, WorkerActs(k, body)) && s3 == Act(w, maxRequests, s2, WorkerActs(k, body))
    requires CanAct(w, maxRequests, s3, BrokerActs(TakeAck)) && s4 == Act(w, maxRequests, s3, BrokerActs(TakeAck))
    ensures CanRun(w, maxRequests, s, Handshake(k, body)) && Serve(w, maxRequests, s, Handshake(k, body)) == s4
  {
    hide CanAct;
    hide Act;
    OneAct(w, maxRequests, s3, BrokerActs(TakeAck), [], s4);
    OneAct(w, maxRequests, s2, WorkerActs(k, body), [BrokerActs(TakeAck)] + [], s3);
    OneAct(w, maxRequests, s1, BrokerActs(TakeHello), [WorkerActs(k, body)] + ([BrokerActs(TakeAck)] + []), s2);
    OneAct(w, maxRequests, s0, WorkerActs(k, body),
           [BrokerActs(TakeHello)] + ([WorkerActs(k, body)] + ([BrokerActs(TakeAck)] + [])), s1);
    OneAct(w, maxRequests, s, Restart,
           [WorkerActs(k, body)] + ([BrokerActs(TakeHello)] + ([WorkerActs(k, body)] + ([BrokerActs(TakeAck)] + []))), s0);
    assert Handshake(k, body) ==
           [Restart] + ([WorkerActs(k, body)] + ([BrokerActs(TakeHello)]
                        + ([WorkerActs(k, body)] + ([BrokerActs(TakeAck)] + []))));
  }

  // ---------- the broker object ----------

  datatype Inspection = Accepted(body: Body) | Rejected

  /** `inbox` holds the frames waiting on the connection of a live process, if there is one, `served`
      its request count. */
  class BoundedScanWorker {
    const world: World
    const maxRequests: nat
    var inbox: Option<seq<Frame>>
    var served: nat

    constructor (world: World, maxRequests: nat)
      ensures this.world == world && this.maxRequests == maxRequests && inbox.None? && served == 0
    {
      this.world, this.maxRequests := world, maxRequests;
      inbox, served := None, 0;
    }

    /** Whatever is still waiting on the connection goes with it. */
    method CloseConnection()
      modifies this
      ensures inbox.None? && served == 0
    {
      inbox, served := None, 0;
    }

    /** A dead, missing or exhausted worker is replaced; `started` is whether that succeeds. */
    method EnsureStarted(alive: bool, starts: bool) returns (restarted: bool, ok: bool)
      modifies this
      ensures restarted <==> old(inbox).None? || !alive || old(served) >= maxRequests
      ensures ok <==> !restarted || starts
      ensures inbox == (if !restarted then old(inbox) else if starts then Some([]) else None)
      ensures served == if restarted then 0 else old(served)
    {
      restarted := inbox.None? || !alive || served >= maxRequests;
      ok := true;
      if restarted {
        CloseConnection();
        ok := starts;
        if starts {
          inbox := Some([]);
        }
      }
    }

    /** One inspection over a connection, whatever the worker answers. `pieces` are the chunks the
        file yields, `sameStat` the final metadata check, `arrivals` the frames that come in before
        the deadline, and `failsAt` the operation that the system fails, if any: 0 sends the request,
        `k + 1` reads and sends chunk `k`, then come the end of the file, its metadata and the
        receipt. Anything returned carries the broker's own digest and size and only known,
        distinct rule ids. After any failure the connection is gone with all its frames, so no later
        request reads them; and if no frame that was waiting before names this request, the accepted
        answer arrived during it. */
    method Inspect(id: RequestId, size: nat, pieces: seq<Bytes>, sameStat: bool, arrivals: seq<Frame>,
                   failsAt: Option<nat>)
      returns (r: Inspection, sent: seq<Frame>)
      requires inbox.Some?
      requires forall c :: c in pieces ==> c != []
      modifies this
      ensures var frames := old(inbox).value + arrivals;
              r.Accepted? <==>
                (failsAt.None? || failsAt.value > |pieces| + 3)
                && |Flatten(pieces)| == size <= world.maxFileBytes && sameStat && frames != []
                && Believable(world, frames[0], id, Flatten(pieces))
      ensures r.Accepted? ==> served == old(served) + 1
      ensures r.Accepted? ==> var frames := old(inbox).value + arrivals;
                              r.body == frames[0].body && inbox == Some(frames[1..])
      ensures r.Accepted? ==>
                && r.body.Scan? && r.body.sha == world.digest(Flatten(pieces)) && r.body.bytesRead == size
                && (forall i :: i in r.body.ids ==> exists k :: 0 <= k < |world.rules| && world.rules[k].id == i)
                && (forall i, j :: 0 <= i < j < |r.body.ids| ==> r.body.ids[i] != r.body.ids[j])
                && |r.body.observations| <= 32 && (forall o :: o in r.body.observations ==> !o.eligible)
      ensures r.Accepted? && (forall f :: f in old(inbox).value ==> !(f.Response? && f.id == id)) ==>
                old(inbox).value == [] && arrivals != [] && r.body == arrivals[0].body
      ensures r.Accepted? ==> sent == [Request(id, size)] + Chunks(pieces)
      ensures r.Rejected? ==> inbox.None? && served == 0
    {
      sent := [];
      if failsAt == Some(0) {
        CloseConnection();
        return Rejected, sent;
      }
      sent := [Request(id, size)];
      var hashed: Bytes := [];
      for k := 0 to |pieces|
        invariant failsAt.None? || failsAt.value > k
        invariant hashed == Flatten(pieces[..k]) && |hashed| <= size && |hashed| <= world.maxFileBytes
        invariant sent == [Request(id, size)] + Chunks(pieces[..k])
        invariant inbox == old(inbox) && served == old(served)
      {
        FlattenGrows(pieces, k);
        ChunksGrow(pieces, k);
        if failsAt == Some(k + 1) {
          CloseConnection();
          return Rejected, sent;
        }
        if |hashed| + |pieces[k]| > size || |hashed| + |pieces[k]| > world.maxFileBytes {
          FlattenLonger(pieces, k + 1);
          CloseConnection();
          return Rejected, sent;
        }
        hashed := hashed + pieces[k];
        sent := sent + [Chunk(pieces[k])];
      }
      assert pieces[..|pieces|] == pieces;
      if failsAt.Some? && failsAt.value <= |pieces| + 3 {
        CloseConnection();
        return Rejected, sent;
      }
      var frames := inbox.value + arrivals;
      if !sameStat || |hashed| != size || frames == [] {
        CloseConnection();
        return Rejected, sent;
      }
      inbox := Some(frames[1..]);
      served := served + 1;
      AcceptableMeans(world, frames[0], id, hashed);
      hide Believable;
      if !Acceptable(world, frames[0], id, size, world.digest(hashed)) {
        CloseConnection();
        return Rejected, sent;
      }
      BelievedIds(world, frames[0], id, hashed);
      assert old(inbox).value != [] ==> frames[0] in old(inbox).value;
      return Accepted(frames[0].body), sent;
    }
  }

  lemma BelievedIds(w: World, f: Frame, id: RequestId, content: Bytes)
    requires Believable(w, f, id, content)
    ensures f.body.Scan? && forall i :: i in f.body.ids ==> exists k :: 0 <= k < |w.rules| && w.rules[k].id == i
    ensures forall i, j :: 0 <= i < j < |f.body.ids| ==> f.body.ids[i] != f.body.ids[j]
    ensures |f.body.observations| <= 32 && forall o :: o in f.body.observations ==> !o.eligible
    ensures f.body.sha == w.digest(content) && f.body.bytesRead == |content|
  {
    DistinctIsCounted(f.body.ids);
    forall i | i in f.body.ids ensures exists k :: 0 <= k < |w.rules| && w.rules[k].id == i {
      var r :| r in w.rules && r.id == i;
      var k :| 0 <= k < |w.rules| && w.rules[k] == r;
    }
  }

  function Chunks(pieces: seq<Bytes>): seq<Frame> {
    seq(|pieces|, i requires 0 <= i < |pieces| => Chunk(pieces[i]))
  }

  lemma ChunksGrow(pieces: seq<Bytes>, k: nat)
    requires k < |pieces|
    ensures Chunks(pieces[..k + 1]) == Chunks(pieces[..k]) + [Chunk(pieces[k])]
  {
  }
}
