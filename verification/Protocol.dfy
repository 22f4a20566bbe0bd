/**
  The settlement service as a step system: any number of handler invocations (workers) over one
  broker queue, one Redis and one Postgres table.  A step is one atomic action of one worker, or one
  action of the environment.  Every remote call may raise with or without its effect applied.
*/
module Protocol {
  import opened Options
  import opened Domain

  /** Where the broker sees one copy of a message. */
  datatype Place = Ready | Held(worker: nat) | Acked

  datatype Copy = Copy(msg: Reading, place: Place)

  /** How far one handler invocation has come. */
  datatype Phase =
    | Received                        // delivered, nothing looked at
    | Checked                         // steps 1 to 2b passed
    | LostRace                        // SET NX found the key taken
    | Holding                         // SET NX won
    | Rejecting(outcome: Outcome)     // permanently bad, claim still to be released
    | Writing                         // opened, row still to be inserted
    | Marking(outcome: Outcome)       // row committed or refused as duplicate, marker still to be set
    | Failing                         // in the outer exception handler
    | Finished(outcome: Outcome)      // process() returned
    | Raised                          // process() raised

  datatype Worker = Worker(copy: nat, msg: Reading, checkedAt: int, phase: Phase)

  /** A committed row, with the copy and the freshness check it came from. */
  datatype Commit = Commit(row: Row, origin: nat, checkedAt: int)

  /** An outcome recorded by some replica, with the copy and the check time it is about. */
  datatype Report = Report(copy: nat, msg: Reading, checkedAt: int, outcome: Outcome)

  datatype State = State(
    now: int, redis: Markers, table: seq<Commit>, copies: map<nat, Copy>,
    workers: map<nat, Worker>, log: seq<Report>)

  datatype Step =
    | Publish(id: nat, msg: Reading)
    | Tick(elapsed: nat)
    | Flush(keys: set<Key>)
    | Deliver(w: nat, id: nat)
    | Check(w: nat)
    | SetNx(w: nat, fault: Fault)
    | Get(w: nat, raises: bool)
    | Open(w: nat)
    | Insert(w: nat, fault: Fault)
    | Mark(w: nat, fault: Fault)
    | Release(w: nat, fault: Fault)
    | Resolve(w: nat)        // ack or nack
    | Crash(w: nat)          // the worker dies, the broker takes the message back
    | Disconnect(w: nat)     // the broker takes the message back, the worker runs on

  function Start(now: int): State {
    State(now, map[], [], map[], map[], [])
  }

  predicate HasPid(table: seq<Commit>, p: PacketId) {
    exists n :: 0 <= n < |table| && table[n].row.packetId == p
  }

  predicate HasKey(table: seq<Commit>, k: Key) {
    exists n :: 0 <= n < |table| && table[n].row.key == k
  }

  /** Both unique constraints and both CHECK constraints. */
  predicate Admissible(table: seq<Commit>, row: Row) {
    !HasKey(table, row.key) && !HasPid(table, row.packetId) && MeetsChecks(row)
  }

  /** `w` is a running worker whose message at least parsed. */
  predicate Busy(s: State, w: nat) {
    w in s.workers && s.workers[w].msg.Parsed?
  }

  predicate Attached(s: State, w: nat) {
    && w in s.workers
    && s.workers[w].copy in s.copies
    && s.copies[s.workers[w].copy].place == Held(w)
  }

  predicate Enabled(c: Config, s: State, step: Step) {
    match step
    case Publish(id, _) => id !in s.copies
    case Tick(_) => true
    case Flush(_) => true
    case Deliver(w, id) => w !in s.workers && id in s.copies && s.copies[id].place.Ready?
    case Check(w) => w in s.workers && s.workers[w].phase.Received?
    case SetNx(w, _) => Busy(s, w) && s.workers[w].phase.Checked?
    case Get(w, _) => Busy(s, w) && s.workers[w].phase.LostRace?
    case Open(w) => Busy(s, w) && s.workers[w].phase.Holding?
    case Insert(w, _) =>
      Busy(s, w) && s.workers[w].phase.Writing? && c.region(s.workers[w].msg.key).content.Opens?
    case Mark(w, _) => Busy(s, w) && s.workers[w].phase.Marking?
    case Release(w, _) => Busy(s, w) && (s.workers[w].phase.Rejecting? || s.workers[w].phase.Failing?)
    case Resolve(w) => w in s.workers && (s.workers[w].phase.Finished? || s.workers[w].phase.Raised?)
    case Crash(w) => w in s.workers
    case Disconnect(w) => Attached(s, w)
  }

  function Goto(s: State, w: nat, phase: Phase): State
    requires w in s.workers
  {
    s.(workers := s.workers[w := s.workers[w].(phase := phase)])
  }

  /** process() returns `o`, which the replica's metrics record. */
  function Finish(s: State, w: nat, o: Outcome): State
    requires w in s.workers
  {
    var me := s.workers[w];
    Goto(s, w, Finished(o)).(log := s.log + [Report(me.copy, me.msg, me.checkedAt, o)])
  }

  /** The broker moves the copy held by `w`, if `w` still holds it. */
  function Return(s: State, w: nat, place: Place): State {
    if Attached(s, w) then
      var id := s.workers[w].copy;
      s.(copies := s.copies[id := s.copies[id].(place := place)])
    else s
  }

  function Put(redis: Markers, k: Key, e: Entry, f: Fault): Markers {
    if f.FailsBefore? then redis else redis[k := e]
  }

  function Drop(redis: Markers, k: Key, f: Fault): Markers {
    if f.FailsBefore? then redis else redis - {k}
  }

  function Retries(phase: Phase): bool {
    phase.Raised? || (phase.Finished? && phase.outcome.retryable)
  }

  function Apply(c: Config, s: State, step: Step): State
    requires Enabled(c, s, step)
  {
    match step
    case Publish(id, m) => s.(copies := s.copies[id := Copy(m, Ready)])
    case Tick(d) => s.(now := s.now + d, redis := Purge(s.redis, s.now + d))
    case Flush(keys) => s.(redis := s.redis - keys)
    case Deliver(w, id) =>
      s.(copies := s.copies[id := s.copies[id].(place := Held(w))],
         workers := s.workers[w := Worker(id, s.copies[id].msg, s.now, Received)])
    case Check(w) =>
      var s1 := s.(workers := s.workers[w := s.workers[w].(checkedAt := s.now)]);
      (match Screen(c, s.workers[w].msg, s.now)
       case None => Goto(s1, w, Checked)
       case Some(o) => Finish(s1, w, o))
    case SetNx(w, f) =>
      var k := s.workers[w].msg.key;
      var taken := k in s.redis;
      var s1 := if taken then s
                else s.(redis := Put(s.redis, k, Entry(ClaimedMarker, s.now + c.claimTtl), f));
      Goto(s1, w, if !f.Works? then Raised else if taken then LostRace else Holding)
    case Get(w, raises) =>
      var k := s.workers[w].msg.key;
      if raises then Goto(s, w, Raised)
      else
        var settled := k in s.redis && s.redis[k].marker.SettledMarker?;
        Finish(s, w, Duplicate(if settled then DetailAlreadySettled else DetailBeingSettled,
                               k, c.region(k).packetId))
    case Open(w) =>
      (match ContentRefusal(c, s.workers[w].msg.key)
       case Some(o) => Goto(s, w, Rejecting(o))
       case None => Goto(s, w, Writing))
    case Insert(w, f) =>
      var me := s.workers[w];
      var k := me.msg.key;
      var row := RowFor(c, k, me.msg.hopCount);
      var ok := Admissible(s.table, row);
      var s1 := if ok && !f.FailsBefore?
                then s.(table := s.table + [Commit(row, me.copy, me.checkedAt)]) else s;
      Goto(s1, w,
        if !f.Works? then Failing
        else if ok then Marking(SettledAs(k, row.packetId, |s.table|))
        else Marking(Duplicate(DetailAlreadySettled, k, row.packetId)))
    case Mark(w, f) =>
      var k := s.workers[w].msg.key;
      var s1 := s.(redis := Put(s.redis, k, Entry(SettledMarker, s.now + c.settledTtl), f));
      if f.Works? then Finish(s1, w, s.workers[w].phase.outcome) else Goto(s1, w, Failing)
    case Release(w, f) =>
      var k := s.workers[w].msg.key;
      var phase := s.workers[w].phase;
      var s1 := s.(redis := Drop(s.redis, k, f));
      if phase.Rejecting? then
        if f.Works? then Finish(s1, w, phase.outcome) else Goto(s1, w, Failing)
      else
        if f.Works? then Finish(s1, w, UnexpectedFailure(k, c.region(k).packetId)) else Goto(s1, w, Raised)
    case Resolve(w) =>
      var s1 := Return(s, w, if Retries(s.workers[w].phase) then Ready else Acked);
      s1.(workers := s.workers - {w})
    case Crash(w) => Return(s, w, Ready).(workers := s.workers - {w})
    case Disconnect(w) => Return(s, w, Ready)
  }

  /** Every step of the schedule is possible when its turn comes. */
  predicate Legal(c: Config, s: State, steps: seq<Step>)
    decreases |steps|
  {
    steps == [] || (Enabled(c, s, steps[0]) && Legal(c, Apply(c, s, steps[0]), steps[1..]))
  }

  function Exec(c: Config, s: State, steps: seq<Step>): State
    requires Legal(c, s, steps)
    decreases |steps|
  {
    if steps == [] then s else Exec(c, Apply(c, s, steps[0]), steps[1..])
  }

  ghost predicate Reachable(c: Config, s: State) {
    exists t0, steps :: Legal(c, Start(t0), steps) && Exec(c, Start(t0), steps) == s
  }
}
