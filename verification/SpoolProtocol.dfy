/** The spool as a concurrent system: one drain pass, any number of forgets, captures and append
    requests, the group-commit writer, failing I/O and crashes, interleaved freely. Each body
    of the serial queue is one step (src/capture/source-turn-spool.ts). */
module SpoolProtocol {
  import opened OrderedMap
  import opened SpoolJournal
  import opened SpoolOps
  import opened SpoolStartup

  // ---------------------------------------------------------------- state

  datatype Item = Item(id: string, entry: Pending)

  /** A drain pass: what is left of its window, its limits, the ids it wrote (with the hmac it
      wrote), and the registrations it will release at its end. */
  datatype Pass = Pass(rest: seq<Item>, processed: nat, bytes: nat, maxTurns: int,
                       done: seq<Wrote>, held: seq<Held>)
  datatype Wrote = Wrote(id: string, hmac: Hmac)
  datatype Held = Held(id: string, token: nat)

  datatype Drain =
    | Idle
    | Loop(pass: Pass)
    | Reading(pass: Pass, item: Item, token: nat)
    | Writing(pass: Pass, item: Item, token: nat, turn: Turn)
    | Finishing(pass: Pass)
    | Releasing(held: seq<Held>)

  /** A forget awaits the append writer it found, erases, then awaits the registrations it found. */
  datatype Forgetter =
    | AwaitWriter(ids: seq<string>, gen: nat)
    | Ready(ids: seq<string>)
    | AwaitDrain(ids: seq<string>, tokens: set<nat>)
    | Resolved(ids: seq<string>)
    | Rejected(ids: seq<string>)

  datatype Request = Request(rid: nat, turns: seq<Turn>)
  datatype Writer = NoWriter | Running(gen: nat) | Flushing(gen: nat, batch: seq<Request>) | Exited(gen: nat)
  datatype Answer = Answer(accepted: seq<bool>, first: seq<bool>)

  /** Whether start-up has ended, or how many lines its farthest failed attempt has replayed. */
  datatype Boot = Up | Down(read: nat)

  /** The running process and its disk. The last five fields only record history. */
  datatype Sys = Sys(
    spool: Spool, boot: Boot, seeded: bool, drain: Drain, inFlight: map<string, nat>, nextToken: nat, released: set<nat>,
    forgets: map<nat, Forgetter>, queue: seq<Request>, writer: Writer, nextGen: nat,
    answers: map<nat, Answer>, submitted: set<nat>,
    log: Log, seeds: set<string>, written: set<Wrote>, asked: set<string>, final: set<string>)

  /** A process that has started over an empty journal. */
  const START: Sys := Sys(
    Spool([], Fresh({}), false), Up, false, Idle, map[], 0, {},
    map[], [], NoWriter, 0, map[], {},
    Log([], [], 0, true), {}, {}, {}, {})

  // ---------------------------------------------------------------- steps

  datatype Step =
    | Capture(op: Op, io: Io)                  // commitCapture, markExtracted
    | Seed(rows: set<string>)
    | Submit(rid: nat, turns: seq<Turn>)       // appendBatch
    | WriterTake
    | WriterFlush(now: string, io: Io)
    | WriterExit
    | WriterFinally
    | DrainStart(maxTurns: int)
    | DrainNext
    | DrainRead(opens: bool)
    | DrainWrote(ok: bool)
    | DrainFinish(io: Io)
    | DrainRelease
    | ForgetCall(fid: nat, ids: seq<string>)
    | ForgetAwaited(fid: nat)
    | ForgetErase(fid: nat, io: Io)
    | ForgetResolve(fid: nat)
    | Crash(op: Op, cut: nat)
    | Attempted(attempt: Attempt)              // start-up, also one that fails and is tried again
    | StartDies

  function Ids(done: seq<Wrote>): (r: seq<string>)
    ensures |r| == |done| && forall i :: 0 <= i < |done| ==> r[i] == done[i].id
  {
    if done == [] then [] else [done[0].id] + Ids(done[1..])
  }

  function TurnsOf(batch: seq<Request>): (r: seq<seq<Turn>>)
    ensures |r| == |batch| && forall i :: 0 <= i < |batch| ==> r[i] == batch[i].turns
  {
    if batch == [] then [] else [batch[0].turns] + TurnsOf(batch[1..])
  }

  function Window(keys: seq<string>, at: map<string, Pending>): (items: seq<Item>) {
    if keys == [] then []
    else (if keys[0] in at then [Item(keys[0], at[keys[0]])] else []) + Window(keys[1..], at)
  }

  const MAX_PASS: int := 1_000
  const MAX_PASS_BYTES: int := 64 * 1024 * 1024

  /** The loop of a pass stops at its turn limit, at its byte limit, or at its window's end. */
  predicate PassEnds(p: Pass) {
    || p.rest == []
    || p.processed >= p.maxTurns || p.processed >= MAX_PASS
    || p.bytes + p.rest[0].entry.bytes > MAX_PASS_BYTES
  }

  /** readTurn: the line at the recorded place, if it is a put. */
  function ReadTurn(c: Codec, file: seq<byte>, p: Pending): Option<Turn> {
    if p.offset + p.length > |file| then None
    else
      match c.decode(file[p.offset..p.offset + p.length])
      case Some(Put(turn, _)) => Some(turn)
      case _ => None
  }

  /** The operation is one whose body may be running now. */
  predicate InProgress(s: Sys, op: Op) {
    s.boot.Up? &&
    match op
    case Commit(_, _, _) => true
    case Mark(_) => true
    case Flush(batch, _) => s.writer.Flushing? && batch == TurnsOf(s.writer.batch)
    case Complete(done) => s.drain.Finishing? && done == Ids(s.drain.pass.done)
    case Erase(ids) => exists fid :: fid in s.forgets && s.forgets[fid] == Ready(ids)
  }

  predicate WriterSettled(w: Writer, gen: nat) {
    w.NoWriter? || w.Exited? || w.gen != gen
  }

  ghost predicate Enabled(c: Codec, s: Sys, step: Step) {
    if s.boot.Down? then step.Attempted? || step.StartDies? else
    match step
    case Capture(op, _) => op.Commit? || op.Mark?
    case Seed(_) => true
    case Submit(rid, _) => rid !in s.submitted
    case WriterTake => s.writer.Running? && s.queue != []
    case WriterFlush(_, _) => s.writer.Flushing?
    case WriterExit => s.writer.Running? && s.queue == []
    case WriterFinally => s.writer.Exited?
    case DrainStart(_) => s.drain.Idle?
    case DrainNext => s.drain.Loop?
    case DrainRead(_) => s.drain.Reading?
    case DrainWrote(_) => s.drain.Writing?
    case DrainFinish(_) => s.drain.Finishing?
    case DrainRelease => s.drain.Releasing?
    case ForgetCall(fid, _) => fid !in s.forgets
    case ForgetAwaited(fid) => fid in s.forgets && s.forgets[fid].AwaitWriter? && WriterSettled(s.writer, s.forgets[fid].gen)
    case ForgetErase(fid, _) => fid in s.forgets && s.forgets[fid].Ready?
    case ForgetResolve(fid) => fid in s.forgets && s.forgets[fid].AwaitDrain? && s.forgets[fid].tokens <= s.released
    case Attempted(_) => false
    case StartDies => false
    case Crash(op, cut) => InProgress(s, op) && (s.spool.latched ==> cut == 0) && cut <= |c.Bytes(Plan(s.spool.ix, op))|
  }

  function StartWriter(s: Sys): Sys {
    if s.writer.NoWriter? then s.(writer := Running(s.nextGen), nextGen := s.nextGen + 1) else s
  }

  function Perform(c: Codec, s: Sys, op: Op, io: Io): (Sys, bool) {
    var (spool, ok) := Execute(c, s.spool, op, io);
    (s.(spool := spool, log := NextLog(c, s.spool, s.log, op, io)), ok)
  }

  /** Each request gets the verdicts of its own turns, or all false when the shared append failed. */
  function Answers(ok: bool, batch: seq<Request>, vs: seq<Verdict>): map<nat, Answer>
    requires |vs| == |Flatten(TurnsOf(batch))|
  {
    if batch == [] then map[]
    else
      var n := |batch[0].turns|;
      Answers(ok, batch[1..], vs[n..])[batch[0].rid := AnswerOf(ok, vs[..n])]
  }

  function AnswerOf(ok: bool, vs: seq<Verdict>): Answer {
    Answer(seq(|vs|, i requires 0 <= i < |vs| => ok && vs[i].accepted),
           seq(|vs|, i requires 0 <= i < |vs| => ok && vs[i].first))
  }

  function TokensOf(inFlight: map<string, nat>, ids: seq<string>): set<nat> {
    set id | id in ids && id in inFlight :: inFlight[id]
  }

  function HeldTokens(held: seq<Held>): set<nat> {
    set h | h in held :: h.token
  }

  function HeldIds(held: seq<Held>): set<string> {
    set h | h in held :: h.id
  }

  /** What a step makes of the state. */
  function Do(c: Codec, s: Sys, step: Step): Sys
    requires Enabled(c, s, step)
  {
    if OfPass(step) then DoPass(c, s, step)
    else if OfWriter(step) then DoWriter(c, s, step)
    else if OfForget(step) then DoForget(c, s, step)
    else
      match step
      case Capture(op, io) => Perform(c, s, op, io).0
      case Seed(rows) =>
        if s.seeded then s
        else s.(seeded := true, spool := s.spool.(ix := s.spool.ix.(known := s.spool.ix.known + rows)), seeds := s.seeds + rows)
      case Crash(op, cut) => Crashed(c, s, op, cut)
      case Attempted(a) => Try(c, s, a)
      case StartDies => s.(spool := Spool(s.spool.file, Fresh({}), false), boot := Down(0))
  }

  predicate OfPass(step: Step) {
    step.DrainStart? || step.DrainNext? || step.DrainRead? || step.DrainWrote? || step.DrainFinish? || step.DrainRelease?
  }

  predicate OfWriter(step: Step) {
    step.Submit? || step.WriterTake? || step.WriterFlush? || step.WriterExit? || step.WriterFinally?
  }

  predicate OfForget(step: Step) {
    step.ForgetCall? || step.ForgetAwaited? || step.ForgetErase? || step.ForgetResolve?
  }

  /** A step of the drain pass. */
  function DoPass(c: Codec, s: Sys, step: Step): Sys
    requires Enabled(c, s, step) && OfPass(step)
  {
    match step
    case DrainStart(maxTurns) =>
      s.(drain := Loop(Pass(Window(s.spool.ix.pending.keys, s.spool.ix.pending.at), 0, 0, maxTurns, [], [])))
    case DrainNext =>
      var p := s.drain.pass;
      if PassEnds(p) then s.(drain := Finishing(p))
      else
        var item := p.rest[0];
        var p' := p.(rest := p.rest[1..], processed := p.processed + 1, bytes := p.bytes + item.entry.bytes);
        if item.id !in s.spool.ix.pending.at || item.id in s.spool.ix.forgotten then s.(drain := Loop(p'))
        else s.(drain := Reading(p', item, s.nextToken), nextToken := s.nextToken + 1,
                inFlight := s.inFlight[item.id := s.nextToken])
    case DrainRead(opens) =>
      var d := s.drain;
      var turn := if opens then ReadTurn(c, s.spool.file, d.item.entry) else None;
      if turn.Some? then s.(drain := Writing(d.pass, d.item, d.token, turn.value))
      else s.(drain := Loop(Hold(d.pass, d.item.id, d.token)))
    case DrainWrote(ok) =>
      var d := s.drain;
      var p := Hold(d.pass, d.item.id, d.token);
      if ok then
        var w := Wrote(d.item.id, d.turn.hmac);
        s.(drain := Loop(p.(done := p.done + [w])), written := s.written + {w})
      else s.(drain := Loop(p))
    case DrainFinish(io) =>
      var (s', ok) := Perform(c, s, Complete(Ids(s.drain.pass.done)), io);
      s'.(drain := Releasing(s.drain.pass.held))
    case DrainRelease =>
      s.(drain := Idle, released := s.released + HeldTokens(s.drain.held),
         inFlight := s.inFlight - HeldIds(s.drain.held))
  }

  /** A request, or a step of the append writer. */
  function DoWriter(c: Codec, s: Sys, step: Step): Sys
    requires Enabled(c, s, step) && OfWriter(step)
  {
    match step
    case Submit(rid, turns) =>
      StartWriter(s.(queue := s.queue + [Request(rid, turns)], submitted := s.submitted + {rid}))
    case WriterTake => s.(queue := [], writer := Flushing(s.writer.gen, s.queue))
    case WriterFlush(now, io) =>
      var batch := s.writer.batch;
      var (s', ok) := Perform(c, s, Flush(TurnsOf(batch), now), io);
      s'.(writer := Running(s.writer.gen),
          answers := s.answers + Answers(ok, batch, Verdicts(s.spool.ix, Flatten(TurnsOf(batch)), NOTHING)))
    case WriterExit => s.(writer := Exited(s.writer.gen))
    case WriterFinally =>
      var s' := s.(writer := NoWriter);
      if s.queue != [] then StartWriter(s') else s'
  }

  /** A step of a forget. */
  function DoForget(c: Codec, s: Sys, step: Step): Sys
    requires Enabled(c, s, step) && OfForget(step)
  {
    match step
    case ForgetCall(fid, ids) =>
      s.(forgets := s.forgets[fid := if s.writer.NoWriter? then Ready(ids) else AwaitWriter(ids, s.writer.gen)],
         asked := s.asked + set id | id in ids)
    case ForgetAwaited(fid) => s.(forgets := s.forgets[fid := Ready(s.forgets[fid].ids)])
    case ForgetErase(fid, io) =>
      var ids := s.forgets[fid].ids;
      var (s', ok) := Perform(c, s, Erase(ids), io);
      s'.(forgets := s.forgets[fid := if ok then AwaitDrain(ids, TokensOf(s.inFlight, ids)) else Rejected(ids)])
    case ForgetResolve(fid) =>
      var ids := s.forgets[fid].ids;
      s.(forgets := s.forgets[fid := Resolved(ids)], final := s.final + set id | id in ids)
  }

  function Hold(p: Pass, id: string, token: nat): Pass {
    p.(held := p.held + [Held(id, token)])
  }

  /** Only the disk survives a crash. */
  function Crashed(c: Codec, s: Sys, op: Op, cut: nat): Sys {
    var plan := c.Bytes(Plan(s.spool.ix, op));
    START.(spool := Spool(s.spool.file + plan[..Min(cut, |plan|)], Fresh({}), false), boot := Down(0),
           log := CrashLog(s.spool, s.log, op, cut),
           submitted := s.answers.Keys, answers := s.answers,
           written := s.written, asked := s.asked, final := s.final)
  }

  /** One attempt to start: it ends, or the maps stay as far as it came. */
  function Try(c: Codec, s: Sys, a: Attempt): Sys
    requires s.boot.Down?
  {
    var (spool, ok) := StartUp(c, s.spool, a);
    var es, m, n := OnDisk(c, s.log), LinesRead(c, s.spool, s.log, a), s.boot.read;
    if ok then s.(spool := spool, boot := Up, log := Log(es, [], 0, InOrder(c, es, n)))
    else s.(spool := spool, boot := Down(if n <= m then m else n))
  }

  /** The maps, or what a start-up that ends will make of the disk. */
  function Maps(c: Codec, s: Sys): Index {
    if s.boot.Up? then s.spool.ix else Replay(c, Fresh({}), OnDisk(c, s.log), 0)
  }

  /** `steps` can be taken from `s`, one after the other. */
  ghost predicate CanRun(c: Codec, s: Sys, steps: seq<Step>)
    decreases |steps|
  {
    steps == [] || (Enabled(c, s, steps[0]) && CanRun(c, Do(c, s, steps[0]), steps[1..]))
  }

  ghost function RunAll(c: Codec, s: Sys, steps: seq<Step>): Sys
    requires CanRun(c, s, steps)
    decreases |steps|
  {
    if steps == [] then s else RunAll(c, Do(c, s, steps[0]), steps[1..])
  }
}
