/** What the invariant of SpoolLedger says about whole runs of the spool. */
module SpoolRuns {
  import opened Numbers
  import opened SpoolNames
  import opened SpoolFiles
  import opened SpoolState
  import opened SpoolLedger
  import opened SpoolFlushes

  // ---------------------------------------------------------------- recorded times and snapshots

  ghost predicate ClockInv(s: State) {
    && (forall n :: n in s.b.expired ==> s.b.expired[n] <= s.clock)
    && (match s.holder case Expiring(_, _, shot) => shot.at <= s.clock case _ => true)
    && (forall f :: 0 <= f < |s.flushers| ==> s.flushers[f].Finished? || s.flushers[f].at <= s.clock)
  }

  lemma StepKeepsClock(s: State, e: Event, cfg: Config)
    requires cfg.cap > 0 && ClockInv(s) && Enabled(s, e, cfg)
    ensures ClockInv(Apply(s, e, cfg))
  {
  }

  lemma {:induction false} RunKeepsClock(s: State, run: seq<Event>, cfg: Config)
    requires cfg.cap > 0 && ClockInv(s) && Legal(s, run, cfg)
    ensures ClockInv(After(s, run, cfg))
    decreases |run|
  {
    if run != [] {
      StepKeepsClock(s, run[0], cfg);
      RunKeepsClock(Apply(s, run[0], cfg), run[1..], cfg);
    }
  }

  predicate HeldShot(h: Holder, shot: Shot) { (h.Expiring? || h.Evicting?) && h.shot == shot }

  ghost predicate Noted(s: State, shot: Shot) {
    HeldShot(s.holder, shot) || exists n :: n in s.b.evicted && s.b.evicted[n] == shot
  }

  lemma StepNoted(s: State, e: Event, shot: Shot, cfg: Config)
    requires cfg.cap > 0 && Enabled(s, e, cfg) && Noted(Apply(s, e, cfg), shot)
    ensures Noted(s, shot) || (e.BeginEnqueue? && shot == Shot(EntryNames(s.b.st.dir), e.at))
  {
    var s' := Apply(s, e, cfg);
    if !HeldShot(s'.holder, shot) {
      var n :| n in s'.b.evicted && s'.b.evicted[n] == shot;
      assert (n in s.b.evicted && s.b.evicted[n] == shot) || HeldShot(s.holder, shot);
    }
  }

  /** The shot is what some enqueue of the run found when it began. */
  ghost predicate Taken(s: State, run: seq<Event>, shot: Shot, cfg: Config)
    requires cfg.cap > 0 && Legal(s, run, cfg)
  {
    exists k :: 0 <= k < |run| && run[k].BeginEnqueue? && shot == Shot(EntryNames(At(s, run, k, cfg).b.st.dir), run[k].at)
  }

  lemma {:induction false} NotedWasTaken(s: State, run: seq<Event>, shot: Shot, cfg: Config)
    requires cfg.cap > 0 && Legal(s, run, cfg) && Noted(After(s, run, cfg), shot)
    ensures Noted(s, shot) || Taken(s, run, shot, cfg)
    decreases |run|
  {
    if run != [] {
      var s1, rest := Apply(s, run[0], cfg), run[1..];
      NotedWasTaken(s1, rest, shot, cfg);
      if Noted(s1, shot) {
        StepNoted(s, run[0], shot, cfg);
        if !Noted(s, shot) { assert At(s, run, 0, cfg) == s; }
      } else {
        var k :| 0 <= k < |rest| && rest[k].BeginEnqueue? && shot == Shot(EntryNames(At(s1, rest, k, cfg).b.st.dir), rest[k].at);
        assert run[k + 1] == rest[k] && At(s, run, k + 1, cfg) == At(s1, rest, k, cfg);
      }
    }
  }

  // ---------------------------------------------------------------- nothing is lost

  lemma OutdoneIsOut(n: string, names: set<string>, keep: nat, kept: set<string>)
    requires n in names && Outdone(n, names, keep) && IsNewest(kept, names, keep)
    ensures n !in kept
  {
    if n in kept {
      var newer: set<string> :| AllNewer(newer, n) && newer <= names && |newer| >= keep;
      forall m | m in newer ensures m in kept {
        if m !in kept { NotBoth(n, m); }
      }
      BeforeIrreflexive(n);
      SubsetSize(newer + {n}, kept);
    }
  }

  /** Evicted as one of the oldest over capacity: it was in the spool when an enqueue of this run began,
      unexpired, and not among the newest that leave room for one more. */
  ghost predicate RightlyEvicted(s0: State, run: seq<Event>, shot: Shot, n: string, cfg: Config)
    requires cfg.cap > 0 && Legal(s0, run, cfg)
  {
    var unexpired := Unexpired(shot.entries, OlderThan(shot.at - cfg.maxAge));
    && Taken(s0, run, shot, cfg)
    && n in unexpired
    && forall kept :: IsNewest(kept, unexpired, cfg.cap - 1) ==> n !in kept
  }

  /** What may have become of an entry under the name n. */
  ghost predicate Accounted(s0: State, run: seq<Event>, n: string, cfg: Config)
    requires cfg.cap > 0 && Legal(s0, run, cfg) && n in After(s0, run, cfg).b.accepted
  {
    var s := After(s0, run, cfg);
    var entry := s.b.accepted[n].entry;
    && (n in s.b.st.dir ==> s.b.st.dir[n] == Entry(entry))
    && (|| n in s.b.st.dir
        || (n in s.b.resolved && s.b.resolved[n] == entry)
        || (n in s.b.expired && entry.createdAt + cfg.maxAge < s.b.expired[n] <= s.clock)
        || (n in s.b.evicted && RightlyEvicted(s0, run, s.b.evicted[n], n, cfg)))
  }

  lemma StartInv(dir: Dir, cfg: Config)
    ensures Inv(Start(dir, cfg), dir, cfg) && ClockInv(Start(dir, cfg))
  {
  }

  /** Whatever the interleaving: an entry accepted in this run, under a name that was no entry when the
      run began, is on disk as it was written, or the engine resolved that very entry, or it was past its
      age at a time that has come, or it was evicted as one of the oldest over capacity. */
  lemma NothingIsLost(dir: Dir, run: seq<Event>, n: string, cfg: Config)
    requires cfg.cap > 0 && Legal(Start(dir, cfg), run, cfg)
    requires n in After(Start(dir, cfg), run, cfg).b.accepted && !IsEntry(dir, n)
    ensures Accounted(Start(dir, cfg), run, n, cfg)
  {
    var s := After(Start(dir, cfg), run, cfg);
    StartInv(dir, cfg);
    RunKeepsInv(Start(dir, cfg), run, dir, cfg);
    RunKeepsClock(Start(dir, cfg), run, cfg);
    assert Tracked(s.b, n, dir) && Kept(s.b, n, cfg);
    if n in s.b.evicted && Outranked(s.b.evicted[n], n, cfg) { EvictedRightly(dir, run, n, cfg); }
  }

  lemma EvictedRightly(dir: Dir, run: seq<Event>, n: string, cfg: Config)
    requires cfg.cap > 0 && Legal(Start(dir, cfg), run, cfg)
    requires var b := After(Start(dir, cfg), run, cfg).b; n in b.evicted && Outranked(b.evicted[n], n, cfg)
    ensures RightlyEvicted(Start(dir, cfg), run, After(Start(dir, cfg), run, cfg).b.evicted[n], n, cfg)
  {
    var shot := After(Start(dir, cfg), run, cfg).b.evicted[n];
    NotedWasTaken(Start(dir, cfg), run, shot, cfg);
    var unexpired := Unexpired(shot.entries, OlderThan(shot.at - cfg.maxAge));
    forall kept | IsNewest(kept, unexpired, cfg.cap - 1) ensures n !in kept {
      OutdoneIsOut(n, unexpired, cfg.cap - 1, kept);
    }
  }

  // ---------------------------------------------------------------- the drop counter

  /** Entries discarded over capacity or age, unresolved. */
  function Overdue(t: Tally): nat { t.pruned + t.aged }

  /** Those and all others that went unresolved. */
  function Unresolved(t: Tally): nat { t.pruned + t.aged + t.stray }

  predicate Counts(b: Books) { b.st.droppedTotal == b.tally.pruned + b.tally.beaten + b.tally.late }

  lemma {:induction false} RunCounts(s: State, run: seq<Event>, cfg: Config)
    requires cfg.cap > 0 && Counts(s.b) && Legal(s, run, cfg)
    ensures Counts(After(s, run, cfg).b)
    decreases |run|
  {
    if run != [] {
      RunCounts(Apply(s, run[0], cfg), run[1..], cfg);
    }
  }

  /** Over every run: the drop counter is the number of entries discarded over capacity or age exactly if
      flushes discarded as many for their age as prunes counted without discarding anything, and the
      number of all that went unresolved exactly if flushes discarded that many of whatever kind. */
  lemma CounterIsExactIff(dir: Dir, run: seq<Event>, cfg: Config)
    requires cfg.cap > 0 && Legal(Start(dir, cfg), run, cfg)
    ensures var b := After(Start(dir, cfg), run, cfg).b; var t := b.tally;
            && (b.st.droppedTotal == Overdue(t) <==> t.aged == t.beaten + t.late)
            && (b.st.droppedTotal == Unresolved(t) <==> t.aged + t.stray == t.beaten + t.late)
  {
    RunCounts(Start(dir, cfg), run, cfg);
  }

  // ---------------------------------------------------------------- runs for each of its errors

  /** A process that starts at the first moment. */
  function Young(cap: nat, maxAge: nat): Config { Config(cap, maxAge, 0) }

  const EARLY := SpoolEntry([], [], 0)

  const FIRST: string := SpoolName(0, 1)

  function OneFile(f: File): Dir { map[FIRST := f] }

  lemma OneName(f: File)
    requires !f.Folder?
    ensures Listing([FIRST], EntryNames(OneFile(f)))
    ensures forall cutoff :: Expired(FIRST, cutoff) <==> 0 < cutoff
  {
    TimeReadsBack(0, 1);
    assert EntryNames(OneFile(f)) == Elems([FIRST]);
  }

  /** A flush that begins at some time has read the only file. */
  lemma ReadFirst(f: File, at: int, cfg: Config) returns (run: seq<Event>)
    requires cfg.cap > 0 && cfg.start <= at && !f.Folder?
    ensures Legal(Start(OneFile(f), cfg), run, cfg)
    ensures var s := Start(OneFile(f), cfg).(clock := at); var to := ReadStep(s.b, Walking([FIRST], at), cfg);
            After(Start(OneFile(f), cfg), run, cfg) == s.(b := to.0, flushers := [to.1])
  {
    OneName(f);
    var s := Start(OneFile(f), cfg);
    run := [BeginFlush([FIRST], at)];
    assert run[1..] == [];
    assert After(s, run, cfg).flushers == [Walking([FIRST], at)];
    Extend(s, run, Read(0), cfg);
    run := run + [Read(0)];
  }

  /** And has delivered it. */
  lemma DeliverFirst(cfg: Config) returns (run: seq<Event>)
    requires cfg.cap > 0 && cfg.start == 0 && cfg.maxAge >= 0
    ensures Legal(Start(OneFile(Entry(EARLY)), cfg), run, cfg)
    ensures var s := Start(OneFile(Entry(EARLY)), cfg);
            After(s, run, cfg) == s.(b := s.b.(resolved := map[FIRST := EARLY]), flushers := [Removing(FIRST, [], 0)])
  {
    var s := Start(OneFile(Entry(EARLY)), cfg);
    run := ReadFirst(Entry(EARLY), 0, cfg);
    assert [FIRST][1..] == [];
    Extend(s, run, Deliver(0, true), cfg);
    run := run + [Deliver(0, true)];
  }

  /** A flush delivers an entry, and removes it while a prune holds a listing that has it: the prune
      counts it as dropped although nothing was. */
  lemma DeliveredEntryIsCounted(maxAge: nat) returns (run: seq<Event>)
    ensures Legal(Start(OneFile(Entry(EARLY)), Young(1, maxAge)), run, Young(1, maxAge))
    ensures var b := After(Start(OneFile(Entry(EARLY)), Young(1, maxAge)), run, Young(1, maxAge)).b;
            b.st.droppedTotal == 1 && b.tally == Tally(0, 0, 0, 1, 0) && b.resolved == map[FIRST := EARLY]
  {
    var s, cfg := Start(OneFile(Entry(EARLY)), Young(1, maxAge)), Young(1, maxAge);
    OneName(Entry(EARLY));
    run := DeliverFirst(cfg);
    Extend(s, run, BeginEnqueue([FIRST], maxAge + 1), cfg);
    run := run + [BeginEnqueue([FIRST], maxAge + 1)];
    Extend(s, run, Remove(0, true), cfg);
    run := run + [Remove(0, true)];
    Extend(s, run, ExpireNext(true), cfg);
    run := run + [ExpireNext(true)];
  }

  /** The same when the prune is quicker with the removal: what it discards is delivered already. */
  lemma ResolvedEntryIsCounted(maxAge: nat) returns (run: seq<Event>)
    ensures Legal(Start(OneFile(Entry(EARLY)), Young(1, maxAge)), run, Young(1, maxAge))
    ensures var b := After(Start(OneFile(Entry(EARLY)), Young(1, maxAge)), run, Young(1, maxAge)).b;
            b.st.droppedTotal == 1 && b.tally == Tally(0, 0, 0, 0, 1) && b.resolved == map[FIRST := EARLY]
  {
    var s, cfg := Start(OneFile(Entry(EARLY)), Young(1, maxAge)), Young(1, maxAge);
    OneName(Entry(EARLY));
    run := DeliverFirst(cfg);
    Extend(s, run, BeginEnqueue([FIRST], maxAge + 1), cfg);
    run := run + [BeginEnqueue([FIRST], maxAge + 1)];
    Extend(s, run, ExpireNext(true), cfg);
    run := run + [ExpireNext(true)];
    Extend(s, run, Remove(0, true), cfg);
    run := run + [Remove(0, true)];
  }

  lemma RemoveFirst(f: File, at: int, cfg: Config) returns (run: seq<Event>)
    requires cfg.cap > 0 && cfg.start <= at && (f.Garbage? || TooOld(f, at - cfg.maxAge))
    ensures Legal(Start(OneFile(f), cfg), run, cfg)
    ensures var b := After(Start(OneFile(f), cfg), run, cfg).b;
            && b.st.droppedTotal == 0 && b.st.dir == map[] && b.resolved == map[]
            && b.tally == if f.Garbage? then Tally(0, 0, 1, 0, 0) else Tally(0, 1, 0, 0, 0)
  {
    var s := Start(OneFile(f), cfg);
    run := ReadFirst(f, at, cfg);
    Extend(s, run, Remove(0, true), cfg);
    run := run + [Remove(0, true)];
  }

  /** A flush that comes too late discards the entry, and the counter stays where it is. */
  lemma AgedEntryIsNotCounted(maxAge: nat) returns (run: seq<Event>)
    ensures Legal(Start(OneFile(Entry(EARLY)), Young(1, maxAge)), run, Young(1, maxAge))
    ensures var b := After(Start(OneFile(Entry(EARLY)), Young(1, maxAge)), run, Young(1, maxAge)).b;
            b.st.droppedTotal == 0 && b.tally == Tally(0, 1, 0, 0, 0) && b.st.dir == map[] && b.resolved == map[]
  {
    run := RemoveFirst(Entry(EARLY), maxAge + 1, Young(1, maxAge));
  }

  /** So does it for a corrupt file, which is not over capacity or age. */
  lemma CorruptFileIsNotCounted(maxAge: nat) returns (run: seq<Event>)
    ensures Legal(Start(OneFile(Garbage), Young(1, maxAge)), run, Young(1, maxAge))
    ensures var b := After(Start(OneFile(Garbage), Young(1, maxAge)), run, Young(1, maxAge)).b;
            b.st.droppedTotal == 0 && b.tally == Tally(0, 0, 1, 0, 0) && b.st.dir == map[]
  {
    run := RemoveFirst(Garbage, 0, Young(1, maxAge));
  }

  const ANOTHER := SpoolEntry("x", [], 0)

  /** An enqueue that leaves the file alone comes to write, when a flush has read it. */
  lemma ComeToWrite(maxAge: nat) returns (run: seq<Event>)
    ensures Legal(Start(OneFile(Entry(EARLY)), Young(2, maxAge)), run, Young(2, maxAge))
    ensures var s := Start(OneFile(Entry(EARLY)), Young(2, maxAge));
            After(s, run, Young(2, maxAge)) == State(s.b, 0, Writing, [Holding(FIRST, EARLY, [], 0)])
  {
    var s, cfg := Start(OneFile(Entry(EARLY)), Young(2, maxAge)), Young(2, maxAge);
    OneName(Entry(EARLY));
    run := ReadFirst(Entry(EARLY), 0, cfg);
    assert [FIRST][1..] == [];
    Extend(s, run, BeginEnqueue([FIRST], 0), cfg);
    run := run + [BeginEnqueue([FIRST], 0)];
    Extend(s, run, ExpireNext(true), cfg);
    run := run + [ExpireNext(true)];
    Extend(s, run, ExpireNext(true), cfg);
    run := run + [ExpireNext(true)];
    Extend(s, run, EvictNext(true), cfg);
    run := run + [EvictNext(true)];
  }

  /** The flush then removes an entry that nobody has resolved, and nothing counts it. */
  lemma ReplacedEntryIsNotCounted(maxAge: nat) returns (run: seq<Event>)
    ensures Legal(Start(OneFile(Entry(EARLY)), Young(2, maxAge)), run, Young(2, maxAge))
    ensures var b := After(Start(OneFile(Entry(EARLY)), Young(2, maxAge)), run, Young(2, maxAge)).b;
            && b.st.droppedTotal == 0 && b.tally == Tally(0, 0, 1, 0, 0) && b.st.dir == map[]
            && FIRST in b.accepted && b.accepted[FIRST].entry == ANOTHER && b.resolved == map[FIRST := EARLY]
  {
    var s, cfg := Start(OneFile(Entry(EARLY)), Young(2, maxAge)), Young(2, maxAge);
    run := ComeToWrite(maxAge);
    Extend(s, run, Write(ANOTHER, true), cfg);
    run := run + [Write(ANOTHER, true)];
    Extend(s, run, Deliver(0, true), cfg);
    run := run + [Deliver(0, true)];
    Extend(s, run, Remove(0, true), cfg);
    run := run + [Remove(0, true)];
  }
}
