/** The names under which an entry is safe from loss: those that no earlier run left behind. */
module SpoolReuse {
  import opened SpoolNames
  import opened SpoolFiles
  import opened SpoolState
  import opened SpoolLedger
  import opened SpoolRuns
  import opened SpoolFlushes

  // ---------------------------------------------------------------- any enqueue can run to its end

  predicate Within(d: Dir, e: Dir) { forall m :: m in d ==> m in e && d[m] == e[m] }

  ghost predicate NoNewFolders(d: Dir, e: Dir) { forall m :: Clashes(d, m) ==> Clashes(e, m) }

  /** Pruning goes on and nothing else. */
  predicate OnlyPruned(s: State, s': State) {
    && s'.flushers == s.flushers && s'.clock == s.clock
    && s'.b.accepted == s.b.accepted && s'.b.st.seqNo == s.b.st.seqNo && Within(s'.b.st.dir, s.b.st.dir)
  }

  lemma PruneStep(s: State, e: Event, cfg: Config)
    requires cfg.cap > 0 && Enabled(s, e, cfg) && (e.ExpireNext? || e.EvictNext?)
    ensures OnlyPruned(s, Apply(s, e, cfg))
  {
  }

  lemma Before1(s: State, e: Event, rest: seq<Event>, cfg: Config)
    requires cfg.cap > 0 && Enabled(s, e, cfg) && Legal(Apply(s, e, cfg), rest, cfg)
    ensures Legal(s, [e] + rest, cfg) && After(s, [e] + rest, cfg) == After(Apply(s, e, cfg), rest, cfg)
  {
    assert ([e] + rest)[1..] == rest;
  }

  lemma {:induction false} ExpireAll(s: State, cfg: Config) returns (run: seq<Event>)
    requires cfg.cap > 0 && s.holder.Expiring?
    ensures Legal(s, run, cfg) && After(s, run, cfg).holder.Evicting? && OnlyPruned(s, After(s, run, cfg))
    decreases |s.holder.todo|
  {
    var s1 := Apply(s, ExpireNext(true), cfg);
    PruneStep(s, ExpireNext(true), cfg);
    var rest := [];
    if s.holder.todo != [] { rest := ExpireAll(s1, cfg); }
    Before1(s, ExpireNext(true), rest, cfg);
    run := [ExpireNext(true)] + rest;
  }

  lemma {:induction false} EvictAll(s: State, cfg: Config) returns (run: seq<Event>)
    requires cfg.cap > 0 && s.holder.Evicting?
    ensures Legal(s, run, cfg) && After(s, run, cfg).holder.Writing? && OnlyPruned(s, After(s, run, cfg))
    decreases |s.holder.survivors|
  {
    var s1 := Apply(s, EvictNext(true), cfg);
    PruneStep(s, EvictNext(true), cfg);
    var rest := [];
    if |s.holder.survivors| > cfg.cap - 1 { rest := EvictAll(s1, cfg); }
    Before1(s, EvictNext(true), rest, cfg);
    run := [EvictNext(true)] + rest;
  }

  /** Up to the write. */
  lemma PruneAll(s: State, at: int, cfg: Config) returns (run: seq<Event>)
    requires cfg.cap > 0 && s.holder.Free? && s.clock <= at
    ensures Legal(s, run, cfg) && After(s, run, cfg).holder.Writing? && OnlyPruned(s.(clock := at), After(s, run, cfg))
  {
    var names := SortAll(EntryNames(s.b.st.dir));
    var s1 := Apply(s, BeginEnqueue(names, at), cfg);
    var a := ExpireAll(s1, cfg);
    var b := EvictAll(After(s1, a, cfg), cfg);
    Chain(s1, a, b, cfg);
    Before1(s, BeginEnqueue(names, at), a + b, cfg);
    run := [BeginEnqueue(names, at)] + (a + b);
  }

  /** After an accepted write the record of the name is clean. */
  predicate Fresh(b: Books, n: string, entry: SpoolEntry) {
    && n in b.accepted && b.accepted[n].entry == entry && n in b.st.dir
    && n !in b.resolved && n !in b.expired && n !in b.evicted
  }

  lemma {:induction false} EnqueueRuns(s: State, at: int, entry: SpoolEntry, cfg: Config) returns (run: seq<Event>)
    requires cfg.cap > 0 && s.holder.Free? && s.clock <= at
    requires IsInt64(entry.createdAt) && cfg.start <= entry.createdAt <= at
    ensures Legal(s, run, cfg)
    ensures var s' := After(s, run, cfg); var n := SpoolName(entry.createdAt, s.b.st.seqNo + 1);
            && s'.holder.Free? && s'.flushers == s.flushers && s'.clock == at && s'.b.st.seqNo == s.b.st.seqNo + 1
            && NoNewFolders(s'.b.st.dir, s.b.st.dir) && (NameIsFree(s.b.st.dir, n) ==> Fresh(s'.b, n, entry))
  {
    run := PruneAll(s, at, cfg);
    var s1 := After(s, run, cfg);
    var n := SpoolName(entry.createdAt, s.b.st.seqNo + 1);
    var write := Write(entry, NameIsFree(s1.b.st.dir, n));
    Extend(s, run, write, cfg);
    run := run + [write];
  }

  lemma {:induction false} EnqueueUpTo(s: State, at: int, last: nat, cfg: Config) returns (run: seq<Event>)
    requires cfg.cap > 0 && s.holder.Free? && s.clock <= at && s.b.st.seqNo <= last
    requires IsInt64(at) && cfg.start <= at
    ensures Legal(s, run, cfg)
    ensures var s' := After(s, run, cfg);
            && s'.holder.Free? && s'.flushers == s.flushers && s'.clock <= at && s'.b.st.seqNo == last
            && NoNewFolders(s'.b.st.dir, s.b.st.dir)
    decreases last - s.b.st.seqNo
  {
    run := [];
    if s.b.st.seqNo < last {
      var first := EnqueueRuns(s, at, SpoolEntry([], [], at), cfg);
      var rest := EnqueueUpTo(After(s, first, cfg), at, last, cfg);
      Chain(s, first, rest, cfg);
      run := first + rest;
    }
  }

  // ---------------------------------------------------------------- a flush that gets to a name

  /** The first flusher moved, and only files other than n went. */
  predicate OnlyFlushed(s: State, s': State, n: string) {
    && s'.holder == s.holder && s'.clock == s.clock && |s'.flushers| == |s.flushers| == 1
    && s'.b.accepted == s.b.accepted && s'.b.st.seqNo == s.b.st.seqNo && Within(s'.b.st.dir, s.b.st.dir)
    && n in s.b.st.dir && n in s'.b.st.dir
  }

  predicate WalksOn(s: State, rest: seq<string>) {
    |s.flushers| == 1 && s.flushers[0].Walking? && s.flushers[0].todo == rest
  }

  /** Deals with the first name and goes on. */
  lemma PassOne(s: State, n: string, cfg: Config) returns (run: seq<Event>)
    requires cfg.cap > 0 && |s.flushers| == 1 && s.flushers[0].Walking? && s.flushers[0].todo != []
    requires n in s.b.st.dir && s.flushers[0].todo[0] != n
    ensures Legal(s, run, cfg) && WalksOn(After(s, run, cfg), s.flushers[0].todo[1..])
    ensures OnlyFlushed(s, After(s, run, cfg), n)
  {
    run := [Read(0)];
    assert run[1..] == [];
    var s1 := Apply(s, Read(0), cfg);
    if s1.flushers[0].Holding? {
      Extend(s, run, Deliver(0, true), cfg);
      run := run + [Deliver(0, true)];
    }
    if !s1.flushers[0].Walking? {
      Extend(s, run, Remove(0, true), cfg);
      run := run + [Remove(0, true)];
    }
  }

  lemma {:induction false} WalkTo(s: State, n: string, cfg: Config) returns (run: seq<Event>)
    requires cfg.cap > 0 && |s.flushers| == 1 && s.flushers[0].Walking? && n in s.flushers[0].todo && n in s.b.st.dir
    ensures Legal(s, run, cfg) && OnlyFlushed(s, After(s, run, cfg), n)
    ensures var w := After(s, run, cfg).flushers[0]; w.Walking? && w.todo != [] && w.todo[0] == n
    decreases |s.flushers[0].todo|
  {
    run := [];
    if s.flushers[0].todo[0] != n {
      var todo := s.flushers[0].todo;
      assert todo == [todo[0]] + todo[1..];
      var first := PassOne(s, n, cfg);
      var rest := WalkTo(After(s, first, cfg), n, cfg);
      Chain(s, first, rest, cfg);
      run := first + rest;
    }
  }

  /** A flush has read the file, and will remove whatever has its name. */
  predicate Grips(w: Flusher, n: string) { (w.Holding? || w.Removing?) && w.name == n }

  lemma ReachGrip(dir: Dir, n: string, cfg: Config) returns (run: seq<Event>)
    requires cfg.cap > 0 && IsEntry(dir, n)
    ensures Legal(Start(dir, cfg), run, cfg)
    ensures var s := After(Start(dir, cfg), run, cfg);
            && s.holder.Free? && s.clock == cfg.start && s.b.st.seqNo == 0 && NoNewFolders(s.b.st.dir, dir)
            && |s.flushers| == 1 && Grips(s.flushers[0], n)
  {
    var s0 := Start(dir, cfg);
    var names := SortAll(EntryNames(dir));
    assert n in Elems(names);
    var s1 := Apply(s0, BeginFlush(names, cfg.start), cfg);
    var walk := WalkTo(s1, n, cfg);
    Before1(s0, BeginFlush(names, cfg.start), walk, cfg);
    run := [BeginFlush(names, cfg.start)] + walk;
    Extend(s0, run, Read(0), cfg);
    run := run + [Read(0)];
  }

  /** The flush that grips the name lets the file go: what it delivered is what it had read. */
  lemma LetGo(s: State, n: string, entry: SpoolEntry, cfg: Config) returns (run: seq<Event>)
    requires cfg.cap > 0 && |s.flushers| == 1 && Grips(s.flushers[0], n) && Fresh(s.b, n, entry)
    requires s.flushers[0].Holding? ==> s.flushers[0].entry != entry
    ensures Legal(s, run, cfg)
    ensures var b := After(s, run, cfg).b;
            && n in b.accepted && b.accepted[n].entry == entry && n !in b.st.dir && n !in b.expired && n !in b.evicted
            && (n in b.resolved ==> b.resolved[n] != entry)
  {
    run := [];
    if s.flushers[0].Holding? {
      Extend(s, run, Deliver(0, true), cfg);
      run := run + [Deliver(0, true)];
    }
    Extend(s, run, Remove(0, true), cfg);
    run := run + [Remove(0, true)];
  }

  /** An entry other than the one a flush may have read. */
  function Other(w: Flusher, at: int): SpoolEntry {
    SpoolEntry(if w.Holding? && w.entry.postId == [] then "x" else [], [], at)
  }

  /** A flush grips the name that the next enqueue gives, and that name is free. */
  predicate Poised(s: State, at: int, serial: nat) {
    var n := SpoolName(at, serial);
    && s.holder.Free? && s.clock <= at && s.b.st.seqNo + 1 == serial
    && |s.flushers| == 1 && Grips(s.flushers[0], n) && NameIsFree(s.b.st.dir, n)
  }

  lemma ComeToGrips(dir: Dir, at: int, serial: nat, cfg: Config) returns (run: seq<Event>)
    requires cfg.cap > 0 && IsInt64(at) && cfg.start <= at && serial > 0
    requires IsEntry(dir, SpoolName(at, serial)) && NameIsFree(dir, SpoolName(at, serial))
    ensures Legal(Start(dir, cfg), run, cfg) && Poised(After(Start(dir, cfg), run, cfg), at, serial)
  {
    var s0 := Start(dir, cfg);
    run := ReachGrip(dir, SpoolName(at, serial), cfg);
    var more := EnqueueUpTo(After(s0, run, cfg), at, serial - 1, cfg);
    Chain(s0, run, more, cfg);
    run := run + more;
  }

  /** The entry under that name is accepted and gone, with nothing to account for it. */
  predicate LostTo(b: Books, n: string, entry: SpoolEntry) {
    && n in b.accepted && b.accepted[n].entry == entry && n !in b.st.dir && n !in b.expired && n !in b.evicted
    && (n in b.resolved ==> b.resolved[n] != entry)
  }

  lemma WriteAndLetGo(s: State, at: int, serial: nat, cfg: Config) returns (run: seq<Event>, entry: SpoolEntry)
    requires cfg.cap > 0 && IsInt64(at) && cfg.start <= at && Poised(s, at, serial)
    ensures Legal(s, run, cfg) && LostTo(After(s, run, cfg).b, SpoolName(at, serial), entry)
  {
    entry := Other(s.flushers[0], at);
    run := EnqueueRuns(s, at, entry, cfg);
    var more := LetGo(After(s, run, cfg), SpoolName(at, serial), entry, cfg);
    Chain(s, run, more, cfg);
    run := run + more;
  }

  /** Wherever an earlier run left an entry file, or a corrupt one, under a name that this run can still
      give, a flush that has read it can remove the new entry, with no other reason for it to be gone. */
  lemma ReusedNameLosesTheEntry(dir: Dir, at: int, serial: nat, cfg: Config) returns (run: seq<Event>)
    requires cfg.cap > 0 && IsInt64(at) && cfg.start <= at && serial > 0
    requires IsEntry(dir, SpoolName(at, serial)) && NameIsFree(dir, SpoolName(at, serial))
    ensures Legal(Start(dir, cfg), run, cfg) && SpoolName(at, serial) in After(Start(dir, cfg), run, cfg).b.accepted
    ensures !Accounted(Start(dir, cfg), run, SpoolName(at, serial), cfg)
  {
    run := ComeToGrips(dir, at, serial, cfg);
    var last, entry := WriteAndLetGo(After(Start(dir, cfg), run, cfg), at, serial, cfg);
    Chain(Start(dir, cfg), run, last, cfg);
    run := run + last;
    assert LostTo(After(Start(dir, cfg), run, cfg).b, SpoolName(at, serial), entry);
  }

  // ---------------------------------------------------------------- names that this run cannot give

  /** Where accepted entries come from, and that nobody touches a directory under a name that is no entry's. */
  ghost predicate OriginInv(b: Books, dir0: Dir, cfg: Config) {
    && (forall n :: n in b.accepted ==>
          && b.accepted[n].serial > 0 && cfg.start <= b.accepted[n].entry.createdAt && !Clashes(dir0, n + ".tmp"))
    && (forall m :: Clashes(dir0, m) && !HasSuffix(m) ==> Clashes(b.st.dir, m))
  }

  lemma KnownHasSuffix(b: Books, n: string, dir0: Dir, cfg: Config)
    requires BooksInv(b, dir0, cfg) && Known(b, n, dir0)
    ensures HasSuffix(n)
  {
    if n in b.accepted {
      assert WellNamed(b, n);
      TimeReadsBack(b.accepted[n].entry.createdAt, b.accepted[n].serial);
    }
  }

  lemma AddKeepsOrigin(b: Books, n: string, a: Accepted, dir0: Dir, cfg: Config)
    requires OriginInv(b, dir0, cfg) && HasSuffix(n) && !HasSuffix(n + ".tmp") && !Clashes(b.st.dir, n + ".tmp")
    requires a.serial > 0 && cfg.start <= a.entry.createdAt
    ensures OriginInv(Added(b, n, a), dir0, cfg)
  {
  }

  lemma WriteKeepsOrigin(b: Books, entry: SpoolEntry, dir0: Dir, cfg: Config)
    requires OriginInv(b, dir0, cfg) && IsInt64(entry.createdAt) && cfg.start <= entry.createdAt
    requires NameIsFree(b.st.dir, SpoolName(entry.createdAt, b.st.seqNo + 1))
    ensures OriginInv(WriteStep(b, entry, true), dir0, cfg)
  {
    var n, next := SpoolName(entry.createdAt, b.st.seqNo + 1), NextSerial(b);
    TimeReadsBack(entry.createdAt, b.st.seqNo + 1);
    assert !HasSuffix(n + ".tmp") by { assert (n + ".tmp")[|n| + 3] == 'p'; }
    ShrinkKeepsOrigin(b, next, [], dir0, cfg);
    AddKeepsOrigin(next, n, Accepted(entry, next.st.seqNo), dir0, cfg);
  }

  lemma ShrinkKeepsOrigin(b: Books, c: Books, n: string, dir0: Dir, cfg: Config)
    requires OriginInv(b, dir0, cfg) && c.accepted == b.accepted
    requires c.st.dir == b.st.dir || (HasSuffix(n) && c.st.dir == b.st.dir - {n})
    ensures OriginInv(c, dir0, cfg)
  {
  }

  lemma TargetKnown(s: State, e: Event, dir0: Dir, cfg: Config)
    requires Inv(s, dir0, cfg) && Target(s, e).Some?
    ensures HasSuffix(Target(s, e).value)
  {
    if e.Remove? { assert FlusherInv(s.b, s.flushers[e.f], dir0, cfg); }
    KnownHasSuffix(s.b, Target(s, e).value, dir0, cfg);
  }

  lemma StepKeepsOrigin(s: State, e: Event, dir0: Dir, cfg: Config)
    requires cfg.cap > 0 && Inv(s, dir0, cfg) && OriginInv(s.b, dir0, cfg) && Enabled(s, e, cfg)
    ensures OriginInv(Apply(s, e, cfg).b, dir0, cfg)
  {
    if e.Write? {
      if e.ok {
        WriteKeepsOrigin(s.b, e.entry, dir0, cfg);
      } else {
        ShrinkKeepsOrigin(s.b, WriteStep(s.b, e.entry, false), [], dir0, cfg);
      }
    } else {
      OnlyTargetGoes(s, e, cfg);
      var target := if Target(s, e).Some? then Target(s, e).value else [];
      if Target(s, e).Some? { TargetKnown(s, e, dir0, cfg); }
      ShrinkKeepsOrigin(s.b, Apply(s, e, cfg).b, target, dir0, cfg);
    }
  }

  lemma {:induction false} RunKeepsOrigin(s: State, run: seq<Event>, dir0: Dir, cfg: Config)
    requires cfg.cap > 0 && Inv(s, dir0, cfg) && OriginInv(s.b, dir0, cfg) && Legal(s, run, cfg)
    ensures OriginInv(After(s, run, cfg).b, dir0, cfg) && Inv(After(s, run, cfg), dir0, cfg)
    decreases |run|
  {
    if run != [] {
      StepKeepsOrigin(s, run[0], dir0, cfg);
      StepKeepsInv(s, run[0], dir0, cfg);
      RunKeepsOrigin(Apply(s, run[0], cfg), run[1..], dir0, cfg);
    }
  }

  /** An entry the spool has accepted bears a name it could give. */
  lemma AcceptedOrigin(dir: Dir, run: seq<Event>, at: int, serial: nat, cfg: Config)
    requires cfg.cap > 0 && Legal(Start(dir, cfg), run, cfg) && IsInt64(at)
    requires SpoolName(at, serial) in After(Start(dir, cfg), run, cfg).b.accepted
    ensures cfg.start <= at && serial > 0 && !Clashes(dir, SpoolName(at, serial) + ".tmp")
  {
    StartInv(dir, cfg);
    RunKeepsOrigin(Start(dir, cfg), run, dir, cfg);
    var b, n := After(Start(dir, cfg), run, cfg).b, SpoolName(at, serial);
    assert WellNamed(b, n);
    NamesAreInjective(b.accepted[n].entry.createdAt, b.accepted[n].serial, at, serial);
  }

  ghost predicate SafeName(dir: Dir, n: string, cfg: Config)
    requires cfg.cap > 0
  {
    forall run ::
      Legal(Start(dir, cfg), run, cfg) && n in After(Start(dir, cfg), run, cfg).b.accepted ==> Accounted(Start(dir, cfg), run, n, cfg)
  }

  /** Whatever is in the directory when the process starts: an entry accepted under a name is accounted
      for in every run, unless the name is that of an entry file there and this run can still give it. */
  lemma SafeExactlyUnlessReused(dir: Dir, at: int, serial: nat, cfg: Config)
    requires cfg.cap > 0 && IsInt64(at)
    ensures var n := SpoolName(at, serial);
            SafeName(dir, n, cfg) <==> !(IsEntry(dir, n) && cfg.start <= at && serial > 0 && !Clashes(dir, n + ".tmp"))
  {
    var n := SpoolName(at, serial);
    if IsEntry(dir, n) && cfg.start <= at && serial > 0 && !Clashes(dir, n + ".tmp") {
      var run := ReusedNameLosesTheEntry(dir, at, serial, cfg);
    } else {
      forall run | Legal(Start(dir, cfg), run, cfg) && n in After(Start(dir, cfg), run, cfg).b.accepted
        ensures Accounted(Start(dir, cfg), run, n, cfg)
      {
        AcceptedOrigin(dir, run, at, serial, cfg);
        NothingIsLost(dir, run, n, cfg);
      }
    }
  }
}
