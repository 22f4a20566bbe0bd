/**
  The claim protocol over time: who may be past a claim, how long a settled marker shields the
  ledger, and how often a message can come back.
*/
module Claims {
  import opened Options
  import opened Domain
  import opened Protocol
  import opened Safety
  import opened NoLoss

  // --- Claim exclusion, key by key ---

  /** Every worker past the claim on `k` still has its marker, and there is at most one. */
  ghost predicate Guarded(s: State, k: Key) {
    && (forall w :: Past(s, w, k) ==> k in s.redis)
    && (forall v, w :: Past(s, v, k) && Past(s, w, k) ==> v == w)
  }

  /** The marker of `k` is flushed or expires under a worker past the claim. */
  ghost predicate Takes(s: State, step: Step, k: Key) {
    && (exists w :: Past(s, w, k))
    && match step
       case Flush(keys) => k in keys
       case Tick(d) => k in s.redis && s.redis[k].expiry <= s.now + d
       case _ => false
  }

  /** A rejection's release takes effect but raises, so that the outer handler will repeat it. */
  predicate HalfReleases(s: State, step: Step, k: Key) {
    step.Release? && step.fault.FailsAfter? && Past(s, step.w, k) && s.workers[step.w].phase.Rejecting?
  }

  /** A packet that reaches the claim and is rejected behind it. */
  predicate RejectedAfterClaim(c: Config, k: Key) {
    c.region(k).aadMatches && !c.region(k).content.Opens?
  }

  lemma PastMoves(c: Config, s: State, step: Step, w: nat, k: Key)
    requires Enabled(c, s, step) && Past(Apply(c, s, step), w, k) && !Past(s, w, k)
    ensures step == SetNx(w, Works) && k !in s.redis && k in Apply(c, s, step).redis
  {
  }

  /** While a worker is past the claim, only these steps or its own exit remove the marker. */
  lemma MarkerStays(c: Config, s: State, step: Step, w: nat, k: Key)
    requires Enabled(c, s, step) && Guarded(s, k) && !Takes(s, step, k) && !HalfReleases(s, step, k)
    requires Past(s, w, k) && Past(Apply(c, s, step), w, k)
    ensures k in Apply(c, s, step).redis
  {
    if step.Release? && s.workers[step.w].msg.key == k {
      assert Past(s, step.w, k);
    }
  }

  lemma KeepsGuarded(c: Config, s: State, step: Step, k: Key)
    requires Enabled(c, s, step) && Guarded(s, k) && !Takes(s, step, k) && !HalfReleases(s, step, k)
    ensures Guarded(Apply(c, s, step), k)
  {
    var s' := Apply(c, s, step);
    forall w | Past(s', w, k) ensures k in s'.redis {
      if Past(s, w, k) {
        MarkerStays(c, s, step, w, k);
      } else {
        PastMoves(c, s, step, w, k);
      }
    }
    forall v, w | Past(s', v, k) && Past(s', w, k) ensures v == w {
      if !Past(s, v, k) {
        PastMoves(c, s, step, v, k);
      }
      if !Past(s, w, k) {
        PastMoves(c, s, step, w, k);
      }
    }
  }

  lemma OnlyRejectedHalfRelease(c: Config, s: State, step: Step, k: Key)
    requires WorkersOk(c, s) && HalfReleases(s, step, k)
    ensures RejectedAfterClaim(c, k)
  {
    assert PhaseOk(c, s.table, s.workers[step.w]);
  }

  /** Along the run the marker of `k` is never flushed nor expires under a worker past the claim. */
  ghost predicate MarkerKept(c: Config, s: State, steps: seq<Step>, k: Key)
    requires Legal(c, s, steps)
    decreases |steps|
  {
    steps != [] ==> !Takes(s, steps[0], k) && MarkerKept(c, Apply(c, s, steps[0]), steps[1..], k)
  }

  predicate NoHalfRelease(c: Config, s: State, steps: seq<Step>, k: Key)
    requires Legal(c, s, steps)
    decreases |steps|
  {
    steps != [] ==> !HalfReleases(s, steps[0], k) && NoHalfRelease(c, Apply(c, s, steps[0]), steps[1..], k)
  }

  lemma {:induction false} RunKeepsGuarded(c: Config, s: State, steps: seq<Step>, k: Key)
    requires Sane(c) && Inv(c, s) && Legal(c, s, steps) && Guarded(s, k) && MarkerKept(c, s, steps, k)
    requires RejectedAfterClaim(c, k) ==> NoHalfRelease(c, s, steps, k)
    ensures Guarded(Exec(c, s, steps), k)
    decreases |steps|
  {
    if steps != [] {
      if HalfReleases(s, steps[0], k) {
        OnlyRejectedHalfRelease(c, s, steps[0], k);
      }
      KeepsGuarded(c, s, steps[0], k);
      KeepsInv(c, s, steps[0]);
      RunKeepsGuarded(c, Apply(c, s, steps[0]), steps[1..], k);
    }
  }

  /** A worker is about to release or promote the marker of `k`. */
  predicate Touches(c: Config, s: State, step: Step, k: Key) {
    (step.Release? || step.Mark?) && Enabled(c, s, step) && s.workers[step.w].msg.key == k
  }

  /**
    In every run that neither flushes nor expires the marker of `k` under a worker, at most one worker
    is past the claim on `k`, and whoever releases or promotes the marker is that worker.  For a packet
    that opens nothing else is asked, whatever fails and whatever happens to other keys.
  */
  lemma ClaimExclusion(c: Config, t0: int, steps: seq<Step>, k: Key)
    requires Sane(c) && Legal(c, Start(t0), steps) && MarkerKept(c, Start(t0), steps, k)
    requires RejectedAfterClaim(c, k) ==> NoHalfRelease(c, Start(t0), steps, k)
    ensures var s := Exec(c, Start(t0), steps);
      && (forall v, w :: Past(s, v, k) && Past(s, w, k) ==> v == w)
      && (forall step, v :: Touches(c, s, step, k) && Past(s, v, k) ==> v == step.w)
  {
    var s := Exec(c, Start(t0), steps);
    RunKeepsGuarded(c, Start(t0), steps, k);
    forall step, v | Touches(c, s, step, k) && Past(s, v, k) ensures v == step.w {
      assert Past(s, step.w, k);
    }
  }

  // --- Where exclusion fails ---

  predicate Collide(s: State, v: nat, w: nat, k: Key) {
    v != w && Past(s, v, k) && Past(s, w, k)
  }

  /** Two copies, checked by two workers; the first has won the claim. */
  function Contention(c: Config, k: Key): State {
    var m := Parsed(k, true, 0);
    var t := c.region(k).createdAt;
    State(t, map[k := Entry(ClaimedMarker, t + c.claimTtl)], [],
      map[0 := Copy(m, Held(0)), 1 := Copy(m, Held(1))],
      map[0 := Worker(0, m, t, Holding), 1 := Worker(1, m, t, Checked)], [])
  }

  /** The same, before either worker has looked at its message. */
  function Delivered(c: Config, k: Key): State {
    var m := Parsed(k, true, 0);
    var t := c.region(k).createdAt;
    State(t, map[], [], map[0 := Copy(m, Held(0)), 1 := Copy(m, Held(1))],
      map[0 := Worker(0, m, t, Received), 1 := Worker(1, m, t, Received)], [])
  }

  lemma QueueTwo(c: Config, k: Key) returns (steps: seq<Step>)
    ensures Legal(c, Start(c.region(k).createdAt), steps)
    ensures Unobtrusive(steps) && MarkerKept(c, Start(c.region(k).createdAt), steps, k)
    ensures Exec(c, Start(c.region(k).createdAt), steps) == Delivered(c, k)
  {
    var m := Parsed(k, true, 0);
    var s := Start(c.region(k).createdAt);
    var s1 := Apply(c, s, Publish(0, m));
    assert Apply(c, s1, Publish(1, m)) == s.(copies := map[0 := Copy(m, Ready), 1 := Copy(m, Ready)]);
    steps := DeliverTwo(c, k);
    Keep(c, s1, Publish(1, m), steps, k);
    steps := [Publish(1, m)] + steps;
    Keep(c, s, Publish(0, m), steps, k);
    steps := [Publish(0, m)] + steps;
  }

  lemma DeliverTwo(c: Config, k: Key) returns (steps: seq<Step>)
    ensures var m := Parsed(k, true, 0);
      var s := Start(c.region(k).createdAt).(copies := map[0 := Copy(m, Ready), 1 := Copy(m, Ready)]);
      && Legal(c, s, steps) && Unobtrusive(steps) && MarkerKept(c, s, steps, k)
      && Exec(c, s, steps) == Delivered(c, k)
  {
    var m := Parsed(k, true, 0);
    var s := Start(c.region(k).createdAt).(copies := map[0 := Copy(m, Ready), 1 := Copy(m, Ready)]);
    var s1 := Apply(c, s, Deliver(0, 0));
    assert Apply(c, s1, Deliver(1, 1)) == Delivered(c, k);
    steps := [];
    Keep(c, s1, Deliver(1, 1), steps, k);
    steps := [Deliver(1, 1)] + steps;
    Keep(c, s, Deliver(0, 0), steps, k);
    steps := [Deliver(0, 0)] + steps;
  }

  lemma CheckAndClaim(c: Config, k: Key) returns (steps: seq<Step>)
    requires Sane(c) && c.region(k).aadMatches
    ensures Legal(c, Delivered(c, k), steps) && Unobtrusive(steps) && MarkerKept(c, Delivered(c, k), steps, k)
    ensures Exec(c, Delivered(c, k), steps) == Contention(c, k)
  {
    var s := Delivered(c, k);
    var s1 := Apply(c, s, Check(0));
    var s2 := Apply(c, s1, Check(1));
    assert s2.workers[0].phase.Checked? && s2.workers[1].phase.Checked?;
    assert Apply(c, s2, SetNx(0, Works)) == Contention(c, k);
    assert Enabled(c, s, Check(0)) && Enabled(c, s1, Check(1)) && Enabled(c, s2, SetNx(0, Works));
    hide Apply, Enabled, Delivered, Contention;
    steps := [];
    Keep(c, s2, SetNx(0, Works), steps, k);
    steps := [SetNx(0, Works)] + steps;
    Keep(c, s1, Check(1), steps, k);
    steps := [Check(1)] + steps;
    Keep(c, s, Check(0), steps, k);
    steps := [Check(0)] + steps;
  }

  lemma Contend(c: Config, k: Key) returns (steps: seq<Step>)
    requires Sane(c) && c.region(k).aadMatches
    ensures Legal(c, Start(c.region(k).createdAt), steps)
    ensures Unobtrusive(steps) && MarkerKept(c, Start(c.region(k).createdAt), steps, k)
    ensures Exec(c, Start(c.region(k).createdAt), steps) == Contention(c, k)
  {
    var first := QueueTwo(c, k);
    var rest := CheckAndClaim(c, k);
    steps := first + rest;
    hide Apply, Start, Delivered, Contention;
    Append(c, Start(c.region(k).createdAt), first, rest);
    AppendKept(c, Start(c.region(k).createdAt), first, rest, k);
  }

  lemma Keep(c: Config, s: State, step: Step, rest: seq<Step>, k: Key)
    requires Enabled(c, s, step) && Legal(c, Apply(c, s, step), rest)
    requires !Takes(s, step, k) && MarkerKept(c, Apply(c, s, step), rest, k)
    ensures Legal(c, s, [step] + rest) && MarkerKept(c, s, [step] + rest, k)
    ensures Exec(c, s, [step] + rest) == Exec(c, Apply(c, s, step), rest)
  {
    assert ([step] + rest)[1..] == rest;
  }

  lemma {:induction false} AppendKept(c: Config, s: State, first: seq<Step>, rest: seq<Step>, k: Key)
    requires Legal(c, s, first) && Legal(c, Exec(c, s, first), rest) && Legal(c, s, first + rest)
    requires MarkerKept(c, s, first, k) && MarkerKept(c, Exec(c, s, first), rest, k)
    ensures MarkerKept(c, s, first + rest, k)
    decreases |first|
  {
    if first == [] {
      assert first + rest == rest;
    } else {
      assert (first + rest)[1..] == first[1..] + rest;
      AppendKept(c, Apply(c, s, first[0]), first[1..], rest, k);
    }
  }

  lemma HalfRelease(c: Config, k: Key) returns (steps: seq<Step>)
    requires RejectedAfterClaim(c, k)
    ensures Legal(c, Contention(c, k), steps) && Unobtrusive(steps) && MarkerKept(c, Contention(c, k), steps, k)
    ensures Collide(Exec(c, Contention(c, k), steps), 0, 1, k)
  {
    var s := Contention(c, k);
    var s1 := Apply(c, s, Open(0));
    var s2 := Apply(c, s1, Release(0, FailsAfter));
    assert Collide(Apply(c, s2, SetNx(1, Works)), 0, 1, k);
    steps := [];
    Keep(c, s2, SetNx(1, Works), steps, k);
    steps := [SetNx(1, Works)] + steps;
    Keep(c, s1, Release(0, FailsAfter), steps, k);
    steps := [Release(0, FailsAfter)] + steps;
    Keep(c, s, Open(0), steps, k);
    steps := [Open(0)] + steps;
  }

  /**
    With no flush and no passing of time: the first worker's release of a packet that does not open
    takes effect but raises, and while its handler is about to repeat it the second worker claims.
  */
  lemma HalfReleaseCollides(c: Config, k: Key) returns (steps: seq<Step>)
    requires Sane(c) && RejectedAfterClaim(c, k)
    ensures Legal(c, Start(c.region(k).createdAt), steps)
    ensures Unobtrusive(steps) && MarkerKept(c, Start(c.region(k).createdAt), steps, k)
    ensures Collide(Exec(c, Start(c.region(k).createdAt), steps), 0, 1, k)
  {
    var first := Contend(c, k);
    var rest := HalfRelease(c, k);
    steps := first + rest;
    hide Apply, Start, Contention;
    Append(c, Start(c.region(k).createdAt), first, rest);
    AppendKept(c, Start(c.region(k).createdAt), first, rest, k);
  }

  ghost predicate Collides(c: Config, t0: int, steps: seq<Step>, k: Key) {
    && Legal(c, Start(t0), steps) && MarkerKept(c, Start(t0), steps, k)
    && exists v, w :: Collide(Exec(c, Start(t0), steps), v, w, k)
  }

  /**
    With the marker of `k` neither flushed nor expiring under a worker, some run brings two workers
    past the claim on `k` exactly when its AAD matches and its content does not open.
  */
  lemma ExclusionExactly(c: Config, k: Key)
    requires Sane(c)
    ensures (exists t0, steps :: Collides(c, t0, steps, k)) <==> RejectedAfterClaim(c, k)
  {
    if RejectedAfterClaim(c, k) {
      var steps := HalfReleaseCollides(c, k);
      assert Collides(c, c.region(k).createdAt, steps, k);
    } else {
      forall t0, steps ensures !Collides(c, t0, steps, k) {
        if Legal(c, Start(t0), steps) && MarkerKept(c, Start(t0), steps, k) {
          ClaimExclusion(c, t0, steps, k);
          assert forall v, w :: !Collide(Exec(c, Start(t0), steps), v, w, k);
        }
      }
    }
  }

  /** A flush, or an expiry, of the marker lets a second worker in for every packet that reaches the claim. */
  lemma TakenMarkerCollides(c: Config, k: Key, expires: bool) returns (steps: seq<Step>)
    requires Sane(c) && c.region(k).aadMatches
    ensures Legal(c, Start(c.region(k).createdAt), steps)
    ensures Collide(Exec(c, Start(c.region(k).createdAt), steps), 0, 1, k)
    ensures forall i :: 0 <= i < |steps| ==> if expires then !steps[i].Flush? else !steps[i].Tick?
  {
    var first := Contend(c, k);
    var s := Contention(c, k);
    var step := if expires then Tick(c.claimTtl) else Flush({k});
    var s1 := Apply(c, s, step);
    assert Collide(Apply(c, s1, SetNx(1, Works)), 0, 1, k);
    var rest := [];
    Prepend(c, s1, SetNx(1, Works), rest);
    rest := [SetNx(1, Works)] + rest;
    Prepend(c, s, step, rest);
    rest := [step] + rest;
    steps := first + rest;
    Append(c, Start(c.region(k).createdAt), first, rest);
  }

  // --- Racing claims ---

  predicate Claiming(s: State, step: Step, k: Key) {
    step.SetNx? && Busy(s, step.w) && s.workers[step.w].msg.key == k
  }

  /** How many SET NX on `k` are won along the schedule. */
  function Wins(c: Config, s: State, steps: seq<Step>, k: Key): nat
    requires Legal(c, s, steps)
    decreases |steps|
  {
    if steps == [] then 0 else
    var s' := Apply(c, s, steps[0]);
    (if Claiming(s, steps[0], k) && s'.workers[steps[0].w].phase.Holding? then 1 else 0)
      + Wins(c, s', steps[1..], k)
  }

  /** How many claims on `k` are attempted along the schedule. */
  function Attempts(c: Config, s: State, steps: seq<Step>, k: Key): nat
    requires Legal(c, s, steps)
    decreases |steps|
  {
    if steps == [] then 0 else
    (if Claiming(s, steps[0], k) then 1 else 0) + Attempts(c, Apply(c, s, steps[0]), steps[1..], k)
  }

  /** Claims on `k` do not raise, and the marker of `k`, once there, stays. */
  ghost predicate Race(c: Config, s: State, steps: seq<Step>, k: Key)
    requires Legal(c, s, steps)
    decreases |steps|
  {
    steps != [] ==>
      var s' := Apply(c, s, steps[0]);
      && (Claiming(s, steps[0], k) ==> steps[0].fault.Works?)
      && (k in s.redis ==> k in s'.redis)
      && Race(c, s', steps[1..], k)
  }

  /** N racing claims on an absent key with no release in between: exactly one wins. */
  lemma {:induction false} RacingClaims(c: Config, s: State, steps: seq<Step>, k: Key)
    requires Legal(c, s, steps) && Race(c, s, steps, k)
    requires k !in s.redis ==> forall w :: !Past(s, w, k)
    ensures Wins(c, s, steps, k) == if k !in s.redis && Attempts(c, s, steps, k) > 0 then 1 else 0
    decreases |steps|
  {
    if steps != [] {
      var s' := Apply(c, s, steps[0]);
      if k !in s'.redis {
        forall w ensures !Past(s', w, k) {
          if Past(s', w, k) {
            PastMoves(c, s, steps[0], w, k);
          }
        }
      }
      RacingClaims(c, s', steps[1..], k);
      if k !in s.redis && !Claiming(s, steps[0], k) && steps[0].Mark? {
        assert !Past(s, steps[0].w, k);
      }
    }
  }

  // --- The lifetime of the settled marker ---

  /** The earliest moment a settled marker for `k` can expire. */
  function ShieldEnd(c: Config, k: Key): int {
    c.region(k).createdAt - c.clockSkew + c.settledTtl
  }

  predicate Shielded(c: Config, s: State, k: Key) {
    ShieldEnd(c, k) <= s.now
    || (k in s.redis && s.redis[k].marker.SettledMarker? && ShieldEnd(c, k) <= s.redis[k].expiry)
  }

  /** The marker of `k` goes only by its lifetime, and claims follow their check within `delay`. */
  predicate Orderly(s: State, step: Step, k: Key, delay: int) {
    && (step.Flush? ==> k !in step.keys)
    && (step.Release? && Busy(s, step.w) ==> s.workers[step.w].msg.key != k)
    && (Claiming(s, step, k) ==> s.now - s.workers[step.w].checkedAt <= delay)
  }

  lemma MarkShields(c: Config, s: State, w: nat, f: Fault)
    requires Clocked(s) && WorkersOk(c, s) && Enabled(c, s, Mark(w, f)) && !f.FailsBefore?
    ensures Shielded(c, Apply(c, s, Mark(w, f)), s.workers[w].msg.key)
  {
    assert PhaseOk(c, s.table, s.workers[w]);
  }

  lemma KeepsShield(c: Config, s: State, step: Step, k: Key, delay: int)
    requires Clocked(s) && WorkersOk(c, s) && Enabled(c, s, step) && Shielded(c, s, k) && Orderly(s, step, k, delay)
    ensures Shielded(c, Apply(c, s, step), k)
  {
    if step.Mark? && s.workers[step.w].msg.key == k && !step.fault.FailsBefore? {
      MarkShields(c, s, step.w, step.fault);
    }
  }

  /** A shielded key cannot be claimed by a worker that checked it within the window. */
  lemma ShieldBlocks(c: Config, s: State, step: Step, k: Key, delay: int)
    requires Inv(c, s) && Enabled(c, s, step) && Shielded(c, s, k) && Orderly(s, step, k, delay)
    requires Claiming(s, step, k) && c.settledTtl > c.freshnessWindow + c.clockSkew + delay
    ensures !Apply(c, s, step).workers[step.w].phase.Holding? && Apply(c, s, step).redis == s.redis
  {
    assert PhaseOk(c, s.table, s.workers[step.w]);
  }

  ghost predicate OrderlyRun(c: Config, s: State, steps: seq<Step>, k: Key, delay: int)
    requires Legal(c, s, steps)
    decreases |steps|
  {
    steps != [] ==> Orderly(s, steps[0], k, delay) && OrderlyRun(c, Apply(c, s, steps[0]), steps[1..], k, delay)
  }

  lemma {:induction false} ShieldHolds(c: Config, s: State, steps: seq<Step>, k: Key, delay: int)
    requires Sane(c) && Inv(c, s) && Legal(c, s, steps) && Shielded(c, s, k)
    requires OrderlyRun(c, s, steps, k, delay)
    requires c.settledTtl > c.freshnessWindow + c.clockSkew + delay
    ensures Wins(c, s, steps, k) == 0
    decreases |steps|
  {
    if steps != [] {
      if Claiming(s, steps[0], k) {
        ShieldBlocks(c, s, steps[0], k, delay);
      }
      KeepsShield(c, s, steps[0], k, delay);
      KeepsInv(c, s, steps[0]);
      ShieldHolds(c, Apply(c, s, steps[0]), steps[1..], k, delay);
    }
  }

  /**
    With a long enough settled lifetime, no claim on the key is won after `mark_settled`, so no
    later delivery reaches decryption or the database.
  */
  lemma TtlBound(c: Config, s: State, w: nat, f: Fault, steps: seq<Step>, delay: int)
    requires Sane(c) && Inv(c, s) && Enabled(c, s, Mark(w, f)) && !f.FailsBefore?
    requires Legal(c, Apply(c, s, Mark(w, f)), steps)
    requires OrderlyRun(c, Apply(c, s, Mark(w, f)), steps, s.workers[w].msg.key, delay)
    requires c.settledTtl > c.freshnessWindow + c.clockSkew + delay
    ensures Wins(c, Apply(c, s, Mark(w, f)), steps, s.workers[w].msg.key) == 0
  {
    MarkShields(c, s, w, f);
    KeepsInv(c, s, Mark(w, f));
    ShieldHolds(c, Apply(c, s, Mark(w, f)), steps, s.workers[w].msg.key, delay);
  }

  lemma CommitAndAck(c: Config, s: State, w: nat) returns (steps: seq<Step>)
    requires Busy(s, w) && s.workers[w].phase.Writing? && Attached(s, w) && Settleable(c, s.workers[w].msg.key)
    requires Admissible(s.table, RowFor(c, s.workers[w].msg.key, s.workers[w].msg.hopCount))
    ensures Legal(c, s, steps)
    ensures var me := s.workers[w]; var e := Exec(c, s, steps);
      && e.now == s.now && e.workers == s.workers - {w}
      && e.redis == s.redis[me.msg.key := Entry(SettledMarker, s.now + c.settledTtl)]
      && e.table == s.table + [Commit(RowFor(c, me.msg.key, me.msg.hopCount), me.copy, me.checkedAt)]
      && e.copies == s.copies[me.copy := s.copies[me.copy].(place := Acked)]
  {
    var s1 := Apply(c, s, Insert(w, Works));
    var s2 := Apply(c, s1, Mark(w, Works));
    assert Attached(s2, w);
    assert Apply(c, s2, Resolve(w)).workers == s.workers - {w};
    steps := [];
    Prepend(c, s2, Resolve(w), steps);
    steps := [Resolve(w)] + steps;
    Prepend(c, s1, Mark(w, Works), steps);
    steps := [Mark(w, Works)] + steps;
    Prepend(c, s, Insert(w, Works), steps);
    steps := [Insert(w, Works)] + steps;
  }

  lemma ClaimAndOpen(c: Config, s: State, w: nat, id: nat) returns (steps: seq<Step>)
    requires w !in s.workers && id in s.copies && s.copies[id].place.Ready?
    requires s.copies[id].msg.Parsed? && Passed(c, s.copies[id].msg, s.now)
    requires Settleable(c, s.copies[id].msg.key) && s.copies[id].msg.key !in s.redis
    ensures Legal(c, s, steps)
    ensures var m := s.copies[id].msg;
      Exec(c, s, steps) == s.(
        redis := s.redis[m.key := Entry(ClaimedMarker, s.now + c.claimTtl)],
        copies := s.copies[id := Copy(m, Held(w))],
        workers := s.workers[w := Worker(id, m, s.now, Writing)])
  {
    var s1 := Apply(c, s, Deliver(w, id));
    var s2 := Apply(c, s1, Check(w));
    assert s2.workers[w].phase.Checked?;
    var s3 := Apply(c, s2, SetNx(w, Works));
    assert Apply(c, s3, Open(w)).workers == s.workers[w := Worker(id, s.copies[id].msg, s.now, Writing)];
    steps := [];
    Prepend(c, s3, Open(w), steps);
    steps := [Open(w)] + steps;
    Prepend(c, s2, SetNx(w, Works), steps);
    steps := [SetNx(w, Works)] + steps;
    Prepend(c, s1, Check(w), steps);
    steps := [Check(w)] + steps;
    Prepend(c, s, Deliver(w, id), steps);
    steps := [Deliver(w, id)] + steps;
  }

  /** A worker alone takes a fresh ready copy of an unclaimed payment to the commit. */
  lemma SettleCopy(c: Config, s: State, w: nat, id: nat) returns (steps: seq<Step>)
    requires w !in s.workers && id in s.copies && s.copies[id].place.Ready?
    requires s.copies[id].msg.Parsed? && Passed(c, s.copies[id].msg, s.now)
    requires Settleable(c, s.copies[id].msg.key) && s.copies[id].msg.key !in s.redis
    requires Admissible(s.table, RowFor(c, s.copies[id].msg.key, s.copies[id].msg.hopCount))
    ensures Legal(c, s, steps)
    ensures var m := s.copies[id].msg; var e := Exec(c, s, steps);
      && e.now == s.now && e.workers == s.workers
      && e.redis == s.redis[m.key := Entry(SettledMarker, s.now + c.settledTtl)]
      && e.table == s.table + [Commit(RowFor(c, m.key, m.hopCount), id, s.now)]
      && e.copies == s.copies[id := Copy(m, Acked)]
  {
    var first := ClaimAndOpen(c, s, w, id);
    var mid := Exec(c, s, first);
    var rest := CommitAndAck(c, mid, w);
    steps := first + rest;
    Append(c, s, first, rest);
    assert mid.workers - {w} == s.workers;
  }

  /** Two copies are published, and the first settles at the earliest moment its timestamp allows. */
  lemma SettleFirstCopy(c: Config, k: Key, hopCount: nat) returns (s: State)
    requires Sane(c) && Settleable(c, k)
    ensures Reachable(c, s)
    ensures s.now == c.region(k).createdAt - c.clockSkew && s.workers == map[]
    ensures s.redis == map[k := Entry(SettledMarker, ShieldEnd(c, k))]
    ensures |s.table| == 1 && s.table[0].row == RowFor(c, k, hopCount)
    ensures 1 in s.copies && s.copies[1] == Copy(Parsed(k, true, hopCount), Ready)
  {
    var t0 := c.region(k).createdAt - c.clockSkew;
    var m := Parsed(k, true, hopCount);
    var s1 := Apply(c, Start(t0), Publish(0, m));
    var s2 := Apply(c, s1, Publish(1, m));
    var steps := SettleCopy(c, s2, 0, 0);
    s := Exec(c, s2, steps);
    Prepend(c, s1, Publish(1, m), steps);
    steps := [Publish(1, m)] + steps;
    Prepend(c, Start(t0), Publish(0, m), steps);
    steps := [Publish(0, m)] + steps;
    assert Legal(c, Start(t0), steps) && Exec(c, Start(t0), steps) == s;
  }

  /** With the marker gone, the second copy is claimed, opened and brought to the insert. */
  lemma RaceToInsert(c: Config, s: State, k: Key, delay: int) returns (steps: seq<Step>)
    requires 1 in s.workers && s.workers[1].phase.Checked? && Settleable(c, k)
    requires s.workers[1].msg.Parsed? && s.workers[1].msg.key == k && s.now - s.workers[1].checkedAt <= delay
    requires k !in s.redis && HasKey(s.table, k)
    ensures Legal(c, s, steps) && OrderlyRun(c, s, steps, k, delay) && Wins(c, s, steps, k) == 1
    ensures var e := Exec(c, s, steps);
      && 1 in e.workers && e.workers[1].phase == Marking(Duplicate(DetailAlreadySettled, k, c.region(k).packetId))
      && e.table == s.table
  {
    var s1 := Apply(c, s, SetNx(1, Works));
    var s2 := Apply(c, s1, Open(1));
    assert s2.workers[1].phase.Writing?;
    steps := [];
    Extend(c, s2, Insert(1, Works), steps, k, delay);
    steps := [Insert(1, Works)] + steps;
    Extend(c, s1, Open(1), steps, k, delay);
    steps := [Open(1)] + steps;
    Extend(c, s, SetNx(1, Works), steps, k, delay);
    steps := [SetNx(1, Works)] + steps;
  }

  /**
    When the lifetime is not long enough, a second copy, still fresh at its check and claiming within
    `delay`, wins the claim of a settled packet and gets as far as the insert, where only the unique
    constraint stops it.
  */
  lemma TtlGap(c: Config, k: Key, hopCount: nat, delay: nat) returns (s: State, steps: seq<Step>)
    requires Sane(c) && Settleable(c, k) && c.settledTtl <= c.freshnessWindow + c.clockSkew + delay
    ensures Reachable(c, s) && Shielded(c, s, k) && HasKey(s.table, k)
    ensures Legal(c, s, steps) && OrderlyRun(c, s, steps, k, delay) && Wins(c, s, steps, k) == 1
    ensures var e := Exec(c, s, steps);
      && 1 in e.workers && e.workers[1].phase == Marking(Duplicate(DetailAlreadySettled, k, c.region(k).packetId))
      && e.table == s.table && |e.table| == 1
  {
    s := SettleFirstCopy(c, k, hopCount);
    assert HasKey(s.table, k) by { assert s.table[0].row.key == k; }
    var last := c.region(k).createdAt + c.freshnessWindow;
    var checkAt := if ShieldEnd(c, k) <= last then ShieldEnd(c, k) else last;
    var s1 := Apply(c, s, Tick(checkAt - s.now));
    var s2 := Apply(c, s1, Deliver(1, 1));
    var s3 := Apply(c, s2, Check(1));
    assert s3.workers[1].phase.Checked?;
    var s4 := Apply(c, s3, Tick(ShieldEnd(c, k) - checkAt));
    steps := RaceToInsert(c, s4, k, delay);
    Extend(c, s3, Tick(ShieldEnd(c, k) - checkAt), steps, k, delay);
    steps := [Tick(ShieldEnd(c, k) - checkAt)] + steps;
    Extend(c, s2, Check(1), steps, k, delay);
    steps := [Check(1)] + steps;
    Extend(c, s1, Deliver(1, 1), steps, k, delay);
    steps := [Deliver(1, 1)] + steps;
    Extend(c, s, Tick(checkAt - s.now), steps, k, delay);
    steps := [Tick(checkAt - s.now)] + steps;
  }

  lemma Extend(c: Config, s: State, step: Step, rest: seq<Step>, k: Key, delay: int)
    requires Enabled(c, s, step) && Legal(c, Apply(c, s, step), rest)
    requires Orderly(s, step, k, delay) && OrderlyRun(c, Apply(c, s, step), rest, k, delay)
    ensures Legal(c, s, [step] + rest) && OrderlyRun(c, s, [step] + rest, k, delay)
    ensures Exec(c, s, [step] + rest) == Exec(c, Apply(c, s, step), rest)
    ensures Wins(c, s, [step] + rest, k) == Wins(c, Apply(c, s, step), rest, k)
      + if Claiming(s, step, k) && Apply(c, s, step).workers[step.w].phase.Holding? then 1 else 0
  {
    assert ([step] + rest)[1..] == rest;
  }

  /** The shipped settings, in microseconds, leave the gap open even when claims follow checks at once. */
  lemma DefaultsLeaveTheGap(c: Config, k: Key, hopCount: nat) returns (s: State, steps: seq<Step>)
    requires Sane(c) && Settleable(c, k)
    requires c.settledTtl == 86_400_000_000 && c.freshnessWindow == 86_400_000_000 && c.clockSkew == 300_000_000
    ensures Reachable(c, s) && HasKey(s.table, k) && Legal(c, s, steps) && OrderlyRun(c, s, steps, k, 0)
    ensures Wins(c, s, steps, k) == 1 && Exec(c, s, steps).table == s.table
  {
    s, steps := TtlGap(c, k, hopCount, 0);
  }

  // --- Requeues ---

  /** This step hands copy `id` back to the queue by a nack. */
  predicate Requeues(s: State, step: Step, id: nat) {
    step.Resolve? && Attached(s, step.w) && s.workers[step.w].copy == id && Retries(s.workers[step.w].phase)
  }

  /** Only a message that verified, was fresh and matched its AAD at this delivery's check is requeued. */
  lemma OnlyPassedIsRequeued(c: Config, s: State, step: Step, id: nat)
    requires Inv(c, s) && Enabled(c, s, step) && Requeues(s, step, id)
    ensures Passed(c, s.copies[id].msg, s.workers[step.w].checkedAt)
  {
    assert PhaseOk(c, s.table, s.workers[step.w]);
  }

  function RequeueCount(c: Config, s: State, steps: seq<Step>, id: nat): nat
    requires Legal(c, s, steps)
    decreases |steps|
  {
    if steps == [] then 0 else
    (if Requeues(s, steps[0], id) then 1 else 0) + RequeueCount(c, Apply(c, s, steps[0]), steps[1..], id)
  }

  /** Each delivery of `id` comes strictly later than `since`, the time of its last nack. */
  ghost predicate Spaced(c: Config, s: State, steps: seq<Step>, id: nat, since: int)
    requires Legal(c, s, steps)
    decreases |steps|
  {
    steps != [] ==>
      && (steps[0].Deliver? && steps[0].id == id ==> since < s.now)
      && Spaced(c, Apply(c, s, steps[0]), steps[1..], id, if Requeues(s, steps[0], id) then s.now else since)
  }

  /** The clock ticks left in the window after `since`. */
  function TicksLeft(c: Config, k: Key, since: int): nat {
    var first := c.region(k).createdAt - c.clockSkew;
    var last := c.region(k).createdAt + c.freshnessWindow;
    var from := if since < first then first else since + 1;
    if from <= last then last - from + 1 else 0
  }

  ghost predicate CheckedSince(s: State, id: nat, since: int) {
    forall w :: Attached(s, w) && s.workers[w].copy == id ==> since < s.workers[w].checkedAt
  }

  lemma KeepsCheckedSince(c: Config, s: State, step: Step, id: nat, since: int)
    requires Clocked(s) && Enabled(c, s, step) && CheckedSince(s, id, since)
    requires step.Deliver? && step.id == id ==> since < s.now
    ensures CheckedSince(Apply(c, s, step), id, if Requeues(s, step, id) then s.now else since)
  {
    var s' := Apply(c, s, step);
    if Requeues(s, step, id) {
      assert forall w :: !(Attached(s', w) && s'.workers[w].copy == id);
    }
  }

  /** A message is requeued at most once per clock tick of its freshness window. */
  lemma {:induction false} RetriesEnd(c: Config, s: State, steps: seq<Step>, id: nat, since: int)
    requires Sane(c) && Inv(c, s) && Legal(c, s, steps)
    requires id in s.copies && s.copies[id].msg.Parsed? && CheckedSince(s, id, since)
    requires Spaced(c, s, steps, id, since)
    ensures RequeueCount(c, s, steps, id) <= TicksLeft(c, s.copies[id].msg.key, since)
      <= c.freshnessWindow + c.clockSkew + 1
    decreases |steps|
  {
    if steps != [] {
      KeepsInv(c, s, steps[0]);
      StepShape(c, s, steps[0]);
      KeepsCheckedSince(c, s, steps[0], id, since);
      if Requeues(s, steps[0], id) {
        OnlyPassedIsRequeued(c, s, steps[0], id);
        RetriesEnd(c, Apply(c, s, steps[0]), steps[1..], id, s.now);
      } else {
        RetriesEnd(c, Apply(c, s, steps[0]), steps[1..], id, since);
      }
    }
  }

  /** Once the window has closed, whatever the delivery, the check ends it and the ack follows. */
  lemma LateDeliveryIsAcked(c: Config, s: State, w: nat)
    requires Inv(c, s) && Enabled(c, s, Check(w)) && Attached(s, w)
    requires s.workers[w].msg.Malformed? || !Passed(c, s.workers[w].msg, s.now)
    ensures var s1 := Apply(c, s, Check(w));
      Enabled(c, s1, Resolve(w)) && Apply(c, s1, Resolve(w)).copies[s.workers[w].copy].place.Acked?
  {
    ScreenTruthful(c, s.table, s.workers[w].msg, s.now);
  }
}
