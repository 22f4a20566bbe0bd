/**
  Sequential, failure-free processing: Redis changes no outcome, and junk changes nothing but the
  evidence table.  Between deliveries time passes, markers expire, and Redis may be flushed.
*/
module Sequential {
  import opened Options
  import opened Domain
  import opened Pipeline

  datatype Event = Delivery(at: int, msg: Reading) | Flushing(at: int, keys: set<Key>)

  function Later(st: Store, t: int): Store {
    st.(now := t, redis := Purge(st.redis, t))
  }

  function Handle(c: Config, st: Store, e: Event): (Store, seq<Outcome>) {
    match e
    case Flushing(at, keys) => (Later(st, at).(redis := Purge(st.redis, at) - keys), [])
    case Delivery(at, m) =>
      var (st1, r) := Process(c, Later(st, at), m, NO_FAULTS);
      (st1, if r.Some? then [r.value] else [])
  }

  /** The final store and the outcomes, in order. */
  function RunAll(c: Config, st: Store, es: seq<Event>): (Store, seq<Outcome>) {
    if es == [] then (st, [])
    else
      var (st1, os) := RunAll(c, st, es[..|es| - 1]);
      var (st2, o) := Handle(c, st1, es[|es| - 1]);
      (st2, os + o)
  }

  /** The same pipeline with no Redis at all: only the unique constraints know what was settled. */
  function PlainProcess(c: Config, st: Store, m: Reading): (Store, Outcome) {
    match Screen(c, m, st.now)
    case Some(o) => (Persist(st, o, Works), o)
    case None =>
      match ContentRefusal(c, m.key)
      case Some(o) => (Persist(st, o, Works), o)
      case None =>
        var row := RowFor(c, m.key, m.hopCount);
        if Insertable(st.rows, row) then
          (st.(rows := st.rows + [row]), SettledAs(m.key, row.packetId, |st.rows|))
        else (st, Duplicate(DetailAlreadySettled, m.key, row.packetId))
  }

  function PlainRun(c: Config, st: Store, es: seq<Event>): (Store, seq<Outcome>) {
    if es == [] then (st, [])
    else
      var (st1, os) := PlainRun(c, st, es[..|es| - 1]);
      match es[|es| - 1]
      case Flushing(at, _) => (st1.(now := at), os)
      case Delivery(at, m) =>
        var (st2, o) := PlainProcess(c, st1.(now := at), m);
        (st2, os + [o])
  }

  /** Between deliveries no claim is left over, and a settled marker stands for a settled packet. */
  ghost predicate Tidy(c: Config, st: Store) {
    && (forall k :: k in st.redis ==>
         && st.redis[k].marker.SettledMarker?
         && c.region(k).content.Opens? && PidTaken(st.rows, c.region(k).packetId))
    && (forall n :: 0 <= n < |st.rows| ==>
         c.region(st.rows[n].key).content.Opens? && st.rows[n].packetId == c.region(st.rows[n].key).packetId)
  }

  lemma TidyLater(c: Config, st: Store, t: int)
    requires Tidy(c, st)
    ensures Tidy(c, Later(st, t))
  {
  }

  lemma RefusedIsTaken(c: Config, st: Store, k: Key, hopCount: nat)
    requires Sane(c) && Tidy(c, st) && c.region(k).content.Opens? && !Insertable(st.rows, RowFor(c, k, hopCount))
    ensures PidTaken(st.rows, c.region(k).packetId)
  {
    if KeyTaken(st.rows, k) {
      var n :| 0 <= n < |st.rows| && st.rows[n].key == k;
      assert st.rows[n].packetId == c.region(k).packetId;
    }
  }

  lemma PidStaysTaken(rows: seq<Row>, row: Row)
    ensures forall p :: PidTaken(rows, p) ==> PidTaken(rows + [row], p)
    ensures PidTaken(rows + [row], row.packetId)
  {
    forall p | PidTaken(rows, p) ensures PidTaken(rows + [row], p) {
      var n :| 0 <= n < |rows| && rows[n].packetId == p;
      assert (rows + [row])[n].packetId == p;
    }
    assert (rows + [row])[|rows|].packetId == row.packetId;
  }

  /** What one delivery is to do: no claim survives it, and Redis made no difference to it. */
  ghost predicate Transparent(c: Config, st: Store, m: Reading) {
    var (st1, r) := Process(c, st, m, NO_FAULTS);
    var (st2, o) := PlainProcess(c, st, m);
    Tidy(c, st1) && r == Some(o) && st1.rows == st2.rows && st1.rejections == st2.rejections
  }

  /** A packet whose marker or row is there already. */
  lemma DuplicateDelivery(c: Config, st: Store, m: Reading)
    requires Tidy(c, st) && Screen(c, m, st.now).None? && c.region(m.key).content.Opens?
    requires PidTaken(st.rows, c.region(m.key).packetId)
    ensures Transparent(c, st, m)
  {
    assert !Insertable(st.rows, RowFor(c, m.key, m.hopCount));
  }

  lemma FirstDelivery(c: Config, st: Store, m: Reading)
    requires Tidy(c, st) && Screen(c, m, st.now).None? && c.region(m.key).content.Opens?
    requires Insertable(st.rows, RowFor(c, m.key, m.hopCount))
    ensures Transparent(c, st, m)
  {
    PidStaysTaken(st.rows, RowFor(c, m.key, m.hopCount));
    assert !PidTaken(st.rows, c.region(m.key).packetId);
  }

  lemma RefusedDelivery(c: Config, st: Store, m: Reading)
    requires Tidy(c, st) && (Screen(c, m, st.now).Some? || ContentRefusal(c, m.key).Some?)
    ensures Transparent(c, st, m)
  {
  }

  lemma OneDelivery(c: Config, st: Store, m: Reading)
    requires Sane(c) && Tidy(c, st)
    ensures Transparent(c, st, m)
  {
    if Screen(c, m, st.now).Some? || ContentRefusal(c, m.key).Some? {
      RefusedDelivery(c, st, m);
    } else if Insertable(st.rows, RowFor(c, m.key, m.hopCount)) {
      FirstDelivery(c, st, m);
    } else {
      RefusedIsTaken(c, st, m.key, m.hopCount);
      DuplicateDelivery(c, st, m);
    }
    hide Transparent, Process, PlainProcess;
  }

  /** Redis does not matter to PlainProcess. */
  lemma PlainIgnoresRedis(c: Config, st: Store, st': Store, m: Reading)
    requires st'.now == st.now && st'.rows == st.rows && st'.rejections == st.rejections
    ensures PlainProcess(c, st', m).1 == PlainProcess(c, st, m).1
    ensures PlainProcess(c, st', m).0.rows == PlainProcess(c, st, m).0.rows
    ensures PlainProcess(c, st', m).0.rejections == PlainProcess(c, st, m).0.rejections
  {
  }

  /**
    For every sequence of deliveries and flushes, with expiries in between, the outcomes, the rows and
    the evidence are those of a processor without Redis, and no claim is ever left behind.
  */
  lemma {:induction false} CacheTransparency(c: Config, st: Store, es: seq<Event>)
    requires Sane(c) && Tidy(c, st)
    ensures var (st1, os1) := RunAll(c, st, es);
      var (st2, os2) := PlainRun(c, st, es);
      Tidy(c, st1) && os1 == os2 && st1.rows == st2.rows && st1.rejections == st2.rejections
  {
    if es != [] {
      var init, e := es[..|es| - 1], es[|es| - 1];
      var (st1, os1) := RunAll(c, st, init);
      var (st2, os2) := PlainRun(c, st, init);
      CacheTransparency(c, st, init);
      if e.Delivery? {
        TidyLater(c, st1, e.at);
        OneDelivery(c, Later(st1, e.at), e.msg);
        PlainIgnoresRedis(c, Later(st1, e.at), st2.(now := e.at), e.msg);
      }
    }
  }

  // --- Non-interference ---

  /** Malformed, badly signed, stale, future-dated, AAD-mismatched or not opening: decided without state. */
  predicate Junk(c: Config, e: Event) {
    e.Delivery? && (Screen(c, e.msg, e.at).Some? || ContentRefusal(c, e.msg.key).Some?)
  }

  function WithoutJunk(c: Config, es: seq<Event>): seq<Event> {
    if es == [] then []
    else
      WithoutJunk(c, es[..|es| - 1]) + if Junk(c, es[|es| - 1]) then [] else [es[|es| - 1]]
  }

  /** The outcomes of the deliveries that are not junk, in a run that contains everything. */
  function Others(c: Config, st: Store, es: seq<Event>): seq<Outcome> {
    if es == [] then []
    else
      Others(c, st, es[..|es| - 1])
        + if Junk(c, es[|es| - 1]) then [] else Handle(c, RunAll(c, st, es[..|es| - 1]).0, es[|es| - 1]).1
  }

  predicate InOrder(st: Store, es: seq<Event>) {
    && (forall i :: 0 <= i < |es| ==> st.now <= es[i].at)
    && (forall i, j :: 0 <= i < j < |es| ==> es[i].at <= es[j].at)
  }

  /** The same table, and the same live markers at time `t`. */
  predicate Alike(a: Store, b: Store, t: int) {
    a.rows == b.rows && Purge(a.redis, t) == Purge(b.redis, t)
  }

  lemma PurgeTwice(redis: Markers, t: int, u: int)
    requires t <= u
    ensures Purge(Purge(redis, t), u) == Purge(redis, u)
  {
  }

  lemma AlikeLater(a: Store, b: Store, t: int, u: int)
    requires t <= u && Alike(a, b, t)
    ensures Alike(a, b, u)
  {
    PurgeTwice(a.redis, t, u);
    PurgeTwice(b.redis, t, u);
  }

  /** Junk is claimed and released again at most; rows and markers are as before. */
  lemma JunkLeavesNoTrace(c: Config, st: Store, e: Event)
    requires Tidy(c, st) && Junk(c, e)
    ensures Handle(c, st, e).0.rows == st.rows && Handle(c, st, e).0.redis == Purge(st.redis, e.at)
  {
    if Screen(c, e.msg, e.at).None? {
      var live := Purge(st.redis, e.at);
      assert e.msg.key !in live;
      assert live[e.msg.key := Entry(ClaimedMarker, e.at + c.claimTtl)] - {e.msg.key} == live;
    }
  }

  lemma AlikeHandlesAlike(c: Config, a: Store, b: Store, e: Event)
    requires Alike(a, b, e.at)
    ensures Handle(c, a, e).1 == Handle(c, b, e).1
    ensures Handle(c, a, e).0.rows == Handle(c, b, e).0.rows
    ensures Handle(c, a, e).0.redis == Handle(c, b, e).0.redis
  {
    if e.Delivery? {
      ProcessIgnoresEvidence(c, Later(a, e.at), Later(b, e.at), e.msg);
    }
  }

  lemma ProcessIgnoresEvidence(c: Config, a: Store, b: Store, m: Reading)
    requires a.now == b.now && a.redis == b.redis && a.rows == b.rows
    ensures Process(c, a, m, NO_FAULTS).1 == Process(c, b, m, NO_FAULTS).1
    ensures Process(c, a, m, NO_FAULTS).0.rows == Process(c, b, m, NO_FAULTS).0.rows
    ensures Process(c, a, m, NO_FAULTS).0.redis == Process(c, b, m, NO_FAULTS).0.redis
  {
  }

  lemma RunAllSnoc(c: Config, st: Store, es: seq<Event>, e: Event)
    ensures RunAll(c, st, es + [e]).0 == Handle(c, RunAll(c, st, es).0, e).0
    ensures RunAll(c, st, es + [e]).1 == RunAll(c, st, es).1 + Handle(c, RunAll(c, st, es).0, e).1
  {
    assert (es + [e])[..|es + [e]| - 1] == es;
  }

  /**
    Deleting every junk delivery leaves the settlements table, the live markers and all remaining
    outcomes as they are.
  */
  lemma {:induction false} NonInterference(c: Config, st: Store, es: seq<Event>, t: int)
    requires Sane(c) && Tidy(c, st) && InOrder(st, es)
    requires st.now <= t && forall i :: 0 <= i < |es| ==> es[i].at <= t
    ensures Alike(RunAll(c, st, es).0, RunAll(c, st, WithoutJunk(c, es)).0, t)
    ensures Others(c, st, es) == RunAll(c, st, WithoutJunk(c, es)).1
  {
    if es != [] {
      var init, e := es[..|es| - 1], es[|es| - 1];
      NonInterference(c, st, init, e.at);
      CacheTransparency(c, st, init);
      var a, b := RunAll(c, st, init).0, RunAll(c, st, WithoutJunk(c, init)).0;
      if Junk(c, e) {
        JunkLeavesNoTrace(c, a, e);
        assert WithoutJunk(c, es) == WithoutJunk(c, init);
        PurgeTwice(a.redis, e.at, t);
        AlikeLater(a, b, e.at, t);
      } else {
        AlikeHandlesAlike(c, a, b, e);
        RunAllSnoc(c, st, WithoutJunk(c, init), e);
      }
    }
  }
}
