/** A whole enqueue and a whole flush, with nobody else about, as runs of SpoolState. */
module SpoolCalls {
  import opened Numbers
  import opened SpoolNames
  import opened SpoolFiles
  import opened SpoolState
  import opened SpoolSteps
  import opened SpoolVerdicts
  import opened SpoolFlushes

  // ---------------------------------------------------------------- an enqueue

  /** The doomed files that can be removed are gone, and counted. */
  ghost function PrunedTo(st: Store, doomed: seq<string>, stuck: set<string>): Store {
    Store(st.dir - (Elems(doomed) - stuck), st.seqNo, st.droppedTotal + CountFree(doomed, stuck))
  }

  lemma PrunedNone(st: Store, stuck: set<string>)
    ensures PrunedTo(st, [], stuck) == st
  {
    assert Elems([]) - stuck == {};
  }

  lemma DoomedMore(doomed: seq<string>, name: string, stuck: set<string>)
    ensures Elems(doomed + [name]) - stuck == (Elems(doomed) - stuck) + (if name in stuck then {} else {name})
  {
  }

  lemma PrunedMore(st: Store, doomed: seq<string>, name: string, stuck: set<string>)
    requires name in st.dir && name !in Elems(doomed)
    ensures PruneUnlinked(PrunedTo(st, doomed, stuck), name, name !in stuck) == PrunedTo(st, doomed + [name], stuck)
  {
    CountMore(doomed, name, stuck);
    DoomedMore(doomed, name, stuck);
    var gone := Elems(doomed) - stuck;
    if name !in stuck { assert st.dir - gone - {name} == st.dir - (gone + {name}); }
  }

  /** One step of the first pass. */
  lemma ExpireOne(s: State, works: bool, cfg: Config)
    requires cfg.cap > 0 && s.holder.Expiring? && s.holder.todo != []
    ensures var h, s' := s.holder, Apply(s, ExpireNext(works), cfg); var name := h.todo[0]; var stale := Expired(name, h.shot.at - cfg.maxAge);
            && SameElse(s, s') && s'.holder == Expiring(h.todo[1..], if stale then h.survivors else h.survivors + [name], h.shot)
            && s'.b.st == if stale then PruneUnlinked(s.b.st, name, works) else s.b.st
  {
  }

  /** One of the second. */
  lemma EvictOne(s: State, works: bool, cfg: Config)
    requires cfg.cap > 0 && s.holder.Evicting? && |s.holder.survivors| > cfg.cap - 1
    ensures var h, s' := s.holder, Apply(s, EvictNext(works), cfg);
            && SameElse(s, s') && s'.holder == Evicting(h.survivors[1..], h.shot)
            && s'.b.st == PruneUnlinked(s.b.st, h.survivors[0], works)
  {
  }

  predicate SameElse(s: State, s': State) {
    s'.clock == s.clock && s'.flushers == s.flushers && s'.b.resolved == s.b.resolved && s'.b.accepted == s.b.accepted
  }

  /** After the first i names of the first pass. */
  ghost predicate ExpiredTo(s: State, s': State, i: nat, stale: iset<string>, stuck: set<string>)
    requires s.holder.Expiring? && i <= |s.holder.todo|
  {
    var h := s.holder;
    && SameElse(s, s') && s'.holder == Expiring(h.todo[i..], Pick(h.todo[..i], stale, false), h.shot)
    && s'.b.st == PrunedTo(s.b.st, Pick(h.todo[..i], stale, true), stuck)
  }

  /** Every name of a listing is in the directory. */
  predicate Lists(names: seq<string>, dir: Dir) { Distinct(names) && Elems(names) <= EntryNames(dir) }

  /** What becomes of the two lists and of the spool with the next name. */
  lemma ExpireLists(st: Store, names: seq<string>, i: nat, stale: iset<string>, stuck: set<string>)
    requires i < |names| && Lists(names, st.dir)
    ensures var kept, doomed := Pick(names[..i], stale, false), Pick(names[..i], stale, true);
            && Pick(names[..i + 1], stale, false) == (if names[i] in stale then kept else kept + [names[i]])
            && PrunedTo(st, Pick(names[..i + 1], stale, true), stuck)
               == (if names[i] in stale then PruneUnlinked(PrunedTo(st, doomed, stuck), names[i], names[i] !in stuck)
                   else PrunedTo(st, doomed, stuck))
  {
    PickMore(names, i, stale, false);
    PickMore(names, i, stale, true);
    NotPickedBefore(names, i, stale, true);
    assert names[i] in Elems(names);
    var doomed := Pick(names[..i], stale, true);
    if names[i] in stale {
      PrunedMore(st, doomed, names[i], stuck);
    } else {
      assert doomed + [] == doomed;
    }
  }

  lemma ExpireMore(s: State, mid: State, i: nat, stale: iset<string>, stuck: set<string>, cfg: Config)
    requires cfg.cap > 0 && s.holder.Expiring? && i < |s.holder.todo| && Lists(s.holder.todo, s.b.st.dir)
    requires ExpiredTo(s, mid, i, stale, stuck)
    requires s.holder.todo[i] in stale <==> Expired(s.holder.todo[i], s.holder.shot.at - cfg.maxAge)
    ensures ExpiredTo(s, Apply(mid, ExpireNext(s.holder.todo[i] !in stuck), cfg), i + 1, stale, stuck)
  {
    var names := s.holder.todo;
    ExpireLists(s.b.st, names, i, stale, stuck);
    assert names[i..][0] == names[i] && names[i..][1..] == names[i + 1..];
    ExpireOne(mid, names[i] !in stuck, cfg);
  }

  lemma {:induction false} ExpireTo(s: State, i: nat, stuck: set<string>, cfg: Config) returns (run: seq<Event>)
    requires cfg.cap > 0 && s.holder.Expiring? && s.holder.survivors == [] && i <= |s.holder.todo| && Lists(s.holder.todo, s.b.st.dir)
    ensures Legal(s, run, cfg) && ExpiredTo(s, After(s, run, cfg), i, OlderThan(s.holder.shot.at - cfg.maxAge), stuck)
    decreases i
  {
    run := [];
    if i == 0 {
      PrunedNone(s.b.st, stuck);
    } else {
      run := ExpireTo(s, i - 1, stuck, cfg);
      var e := ExpireNext(s.holder.todo[i - 1] !in stuck);
      ExpireMore(s, After(s, run, cfg), i - 1, OlderThan(s.holder.shot.at - cfg.maxAge), stuck, cfg);
      Extend(s, run, e, cfg);
      run := run + [e];
    }
  }

  /** After the first k survivors of the second. */
  ghost predicate EvictedTo(s: State, s': State, k: nat, stuck: set<string>)
    requires s.holder.Evicting? && k <= |s.holder.survivors|
  {
    var h := s.holder;
    && SameElse(s, s') && s'.holder == Evicting(h.survivors[k..], h.shot)
    && s'.b.st == PrunedTo(s.b.st, h.survivors[..k], stuck)
  }

  lemma EvictMore(s: State, mid: State, k: nat, stuck: set<string>, cfg: Config)
    requires cfg.cap > 0 && s.holder.Evicting? && k < |s.holder.survivors| - (cfg.cap - 1) && Lists(s.holder.survivors, s.b.st.dir)
    requires EvictedTo(s, mid, k, stuck)
    ensures EvictedTo(s, Apply(mid, EvictNext(s.holder.survivors[k] !in stuck), cfg), k + 1, stuck)
  {
    var survivors := s.holder.survivors;
    NextName(survivors, k);
    assert survivors[k] in Elems(survivors);
    assert survivors[k..][1..] == survivors[k + 1..] && survivors[..k + 1] == survivors[..k] + [survivors[k]];
    PrunedMore(s.b.st, survivors[..k], survivors[k], stuck);
    EvictOne(mid, survivors[k] !in stuck, cfg);
  }

  lemma {:induction false} EvictTo(s: State, k: nat, stuck: set<string>, cfg: Config) returns (run: seq<Event>)
    requires cfg.cap > 0 && s.holder.Evicting? && k <= Max(0, |s.holder.survivors| - (cfg.cap - 1)) && Lists(s.holder.survivors, s.b.st.dir)
    ensures Legal(s, run, cfg) && EvictedTo(s, After(s, run, cfg), k, stuck)
    decreases k
  {
    run := [];
    if k == 0 {
      PrunedNone(s.b.st, stuck);
    } else {
      run := EvictTo(s, k - 1, stuck, cfg);
      var e := EvictNext(s.holder.survivors[k - 1] !in stuck);
      EvictMore(s, After(s, run, cfg), k - 1, stuck, cfg);
      Extend(s, run, e, cfg);
      run := run + [e];
    }
  }

  lemma {:induction false} CountBoth(a: seq<string>, b: seq<string>, stuck: set<string>)
    ensures CountFree(a + b, stuck) == CountFree(a, stuck) + CountFree(b, stuck)
  {
    if b == [] {
      assert a + b == a;
    } else {
      var n := |b| - 1;
      assert (a + b)[..|a| + n] == a + b[..n];
      CountBoth(a, b[..n], stuck);
    }
  }

  lemma PrunedBoth(st: Store, a: seq<string>, b: seq<string>, stuck: set<string>)
    ensures PrunedTo(PrunedTo(st, a, stuck), b, stuck) == PrunedTo(st, a + b, stuck)
  {
    CountBoth(a, b, stuck);
    SetsOf(a, b);
    assert st.dir - (Elems(a) - stuck) - (Elems(b) - stuck) == st.dir - (Elems(a) + Elems(b) - stuck);
  }

  /** What the two passes set out to remove. */
  ghost function Doomed(names: seq<string>, stale: iset<string>, keep: nat): seq<string> {
    var survivors := Pick(names, stale, false);
    Pick(names, stale, true) + survivors[..Max(0, |survivors| - keep)]
  }

  lemma FirstPass(s: State, stuck: set<string>, cfg: Config) returns (run: seq<Event>)
    requires cfg.cap > 0 && s.holder.Expiring? && s.holder.survivors == [] && Lists(s.holder.todo, s.b.st.dir)
    ensures Legal(s, run, cfg)
    ensures var h, s', stale := s.holder, After(s, run, cfg), OlderThan(s.holder.shot.at - cfg.maxAge);
            && SameElse(s, s') && s'.holder == Evicting(Pick(h.todo, stale, false), h.shot)
            && s'.b.st == PrunedTo(s.b.st, Pick(h.todo, stale, true), stuck)
  {
    var names := s.holder.todo;
    run := ExpireTo(s, |names|, stuck, cfg);
    assert names[..|names|] == names && names[|names|..] == [];
    Extend(s, run, ExpireNext(true), cfg);
    run := run + [ExpireNext(true)];
  }

  lemma SecondPass(s: State, stuck: set<string>, cfg: Config) returns (run: seq<Event>)
    requires cfg.cap > 0 && s.holder.Evicting? && Lists(s.holder.survivors, s.b.st.dir)
    ensures Legal(s, run, cfg)
    ensures var s', survivors := After(s, run, cfg), s.holder.survivors;
            && SameElse(s, s') && s'.holder.Writing?
            && s'.b.st == PrunedTo(s.b.st, survivors[..Max(0, |survivors| - (cfg.cap - 1))], stuck)
  {
    run := EvictTo(s, Max(0, |s.holder.survivors| - (cfg.cap - 1)), stuck, cfg);
    Extend(s, run, EvictNext(true), cfg);
    run := run + [EvictNext(true)];
  }

  /** From the listing to the write. */
  lemma PassesRun(s: State, stuck: set<string>, cfg: Config) returns (run: seq<Event>)
    requires cfg.cap > 0 && s.holder.Expiring? && s.holder.survivors == [] && Listing(s.holder.todo, EntryNames(s.b.st.dir))
    ensures Legal(s, run, cfg)
    ensures var s' := After(s, run, cfg);
            && s'.holder.Writing? && SameElse(s, s')
            && s'.b.st == PrunedTo(s.b.st, Doomed(s.holder.todo, OlderThan(s.holder.shot.at - cfg.maxAge), cfg.cap - 1), stuck)
  {
    var survivors, expired, evicted, kept := PruneParts(s.holder.todo, OlderThan(s.holder.shot.at - cfg.maxAge), cfg.cap - 1);
    run := FirstPass(s, stuck, cfg);
    SurvivorsAreThere(s.b.st.dir, survivors, expired, stuck);
    var more := SecondPass(After(s, run, cfg), stuck, cfg);
    Chain(s, run, more, cfg);
    run := run + more;
    PrunedBoth(s.b.st, expired, evicted, stuck);
  }

  lemma SurvivorsAreThere(dir: Dir, survivors: seq<string>, expired: seq<string>, stuck: set<string>)
    requires Distinct(survivors) && Elems(survivors) <= EntryNames(dir) && Elems(expired) !! Elems(survivors)
    ensures Lists(survivors, dir - (Elems(expired) - stuck))
  {
    EntriesMinus(dir, Elems(expired) - stuck);
  }

  /** The parts of a store that the model and the class agree on: all but files that are no entries. */
  ghost predicate Alike(a: Store, b: Store) {
    && EntryNames(a.dir) == EntryNames(b.dir) && Unchanged(EntryNames(a.dir), a.dir, b.dir)
    && a.seqNo == b.seqNo && a.droppedTotal == b.droppedTotal
  }

  /** The lock is free, and the entry was made while the process ran. */
  predicate Ready(s: State, entry: SpoolEntry, now: int, cfg: Config) {
    cfg.cap > 0 && s.holder.Free? && s.clock <= now && IsInt64(entry.createdAt) && cfg.start <= entry.createdAt <= now
  }

  /** What an enqueue beside which nothing happens leaves of the whole state. */
  ghost predicate Enqueued(s: State, s': State, entry: SpoolEntry, now: int, ok: bool, after: Store) {
    var name := SpoolName(entry.createdAt, after.seqNo);
    && s'.holder.Free? && s'.clock == now && s'.flushers == s.flushers && Alike(s'.b.st, after)
    && s'.b.accepted == (if ok then s.b.accepted[name := Accepted(entry, after.seqNo)] else s.b.accepted)
    && s'.b.resolved == (if ok then s.b.resolved - {name} else s.b.resolved)
  }

  /** Some run of the whole model does just that. */
  ghost predicate EnqueueCanRun(s: State, entry: SpoolEntry, now: int, ok: bool, after: Store, cfg: Config)
    requires cfg.cap > 0
  {
    exists run :: Legal(s, run, cfg) && Enqueued(s, After(s, run, cfg), entry, now, ok, after)
  }

  /** What Spool's enqueue promises of a prune when no flush runs beside it. */
  ghost predicate PrunedAlone(entries: set<string>, kept: set<string>, toll: Toll, cutoff: int, keep: nat, stuck: set<string>) {
    && Fair(entries, toll, stuck) && toll.others == {} && Distinct(toll.doomed)
    && IsNewest(kept, Unexpired(entries, OlderThan(cutoff)), keep) && Elems(toll.doomed) == entries - kept
  }

  lemma SameCount(entries: set<string>, toll: Toll, doomed: seq<string>, stuck: set<string>)
    requires Fair(entries, toll, stuck) && toll.others == {} && Distinct(toll.doomed)
    requires Distinct(doomed) && Elems(doomed) == Elems(toll.doomed)
    ensures Counted(toll.fates) == CountFree(doomed, stuck)
  {
    CountFreeIsSize(doomed, stuck);
    CounterIsExactUnlessBeaten(entries, toll, stuck);
  }

  lemma SameDoomed(names: seq<string>, kept: set<string>, cutoff: int, keep: nat)
    requires Sorted(names) && IsNewest(kept, Unexpired(Elems(names), OlderThan(cutoff)), keep)
    ensures var doomed := Doomed(names, OlderThan(cutoff), keep); Distinct(doomed) && Elems(doomed) == Elems(names) - kept
  {
    var survivors, expired, evicted, newest := PruneParts(names, OlderThan(cutoff), keep);
    NewestIsUnique(kept, newest, Unexpired(Elems(names), OlderThan(cutoff)), keep);
    SetsOf(expired, evicted);
  }

  /** It removes and counts what the passes of the model do. */
  lemma SamePrune(st: Store, names: seq<string>, kept: set<string>, toll: Toll, cutoff: int, keep: nat, stuck: set<string>)
    requires Listing(names, EntryNames(st.dir)) && PrunedAlone(EntryNames(st.dir), kept, toll, cutoff, keep, stuck)
    ensures PrunedTo(st, Doomed(names, OlderThan(cutoff), keep), stuck)
            == Store(st.dir - (EntryNames(st.dir) - kept - stuck), st.seqNo, st.droppedTotal + Counted(toll.fates))
  {
    SameDoomed(names, kept, cutoff, keep);
    SameCount(EntryNames(st.dir), toll, Doomed(names, OlderThan(cutoff), keep), stuck);
  }

  /** The directory that an enqueue leaves: the kept entries, those that cannot be removed, and the new one. */
  ghost predicate EnqueuedDir(before: Dir, after: Dir, kept: set<string>, stuck: set<string>, name: string, entry: SpoolEntry, ok: bool) {
    && EntryNames(after) == kept + (EntryNames(before) * stuck) + (if ok then {name} else {})
    && Unchanged(EntryNames(after) - (if ok then {name} else {}), before, after)
    && (ok ==> name in after && after[name] == Entry(entry))
  }

  lemma PrunedEntries(before: Dir, kept: set<string>, stuck: set<string>)
    requires kept <= EntryNames(before)
    ensures var pruned := before - (EntryNames(before) - kept - stuck);
            && EntryNames(pruned) == kept + (EntryNames(before) * stuck) && Unchanged(EntryNames(pruned), before, pruned)
  {
    EntriesMinus(before, EntryNames(before) - kept - stuck);
  }

  lemma WriteEntries(b: Books, entry: SpoolEntry, ok: bool)
    ensures var name, d := SpoolName(entry.createdAt, b.st.seqNo + 1), WriteStep(b, entry, ok).st.dir;
            && EntryNames(d) == EntryNames(b.st.dir) + (if ok then {name} else {})
            && Unchanged(EntryNames(d) - (if ok then {name} else {}), b.st.dir, d)
            && (ok ==> name in d && d[name] == Entry(entry))
  {
    var name := SpoolName(entry.createdAt, b.st.seqNo + 1);
    SuffixFacts(name, entry.createdAt, b.st.seqNo + 1);
    if ok {
      DropOther(b.st.dir, name + ".tmp");
      PutEntry(b.st.dir - {name + ".tmp"}, name, entry);
    }
  }

  lemma WriteAlike(b: Books, after: Dir, kept: set<string>, stuck: set<string>, entry: SpoolEntry, ok: bool, before: Dir)
    requires kept <= EntryNames(before) && b.st.dir == before - (EntryNames(before) - kept - stuck)
    requires EnqueuedDir(before, after, kept, stuck, SpoolName(entry.createdAt, b.st.seqNo + 1), entry, ok)
    ensures var d := WriteStep(b, entry, ok).st.dir; EntryNames(d) == EntryNames(after) && Unchanged(EntryNames(d), d, after)
  {
    PrunedEntries(before, kept, stuck);
    WriteEntries(b, entry, ok);
  }

  lemma BeginRun(s: State, names: seq<string>, now: int, cfg: Config)
    requires cfg.cap > 0 && s.holder.Free? && s.clock <= now && Listing(names, EntryNames(s.b.st.dir))
    ensures Legal(s, [BeginEnqueue(names, now)], cfg)
    ensures After(s, [BeginEnqueue(names, now)], cfg) == s.(holder := Expiring(names, [], Shot(EntryNames(s.b.st.dir), now)), clock := now)
  {
    assert [BeginEnqueue(names, now)][1..] == [];
  }

  lemma PruneRun(s: State, now: int, kept: set<string>, toll: Toll, stuck: set<string>, cfg: Config) returns (run: seq<Event>)
    requires cfg.cap > 0 && s.holder.Free? && s.clock <= now
    requires PrunedAlone(EntryNames(s.b.st.dir), kept, toll, now - cfg.maxAge, cfg.cap - 1, stuck)
    ensures Legal(s, run, cfg)
    ensures var s', st := After(s, run, cfg), s.b.st;
            && s'.holder.Writing? && SameElse(s.(clock := now), s')
            && s'.b.st == Store(st.dir - (EntryNames(st.dir) - kept - stuck), st.seqNo, st.droppedTotal + Counted(toll.fates))
  {
    var names := SortAll(EntryNames(s.b.st.dir));
    SortedIsDistinct(names);
    BeginRun(s, names, now, cfg);
    var passes := PassesRun(After(s, [BeginEnqueue(names, now)], cfg), stuck, cfg);
    Chain(s, [BeginEnqueue(names, now)], passes, cfg);
    run := [BeginEnqueue(names, now)] + passes;
    SamePrune(s.b.st, names, kept, toll, now - cfg.maxAge, cfg.cap - 1, stuck);
  }

  /** The last step. */
  lemma WriteLast(s: State, mid: State, entry: SpoolEntry, now: int, ok: bool, kept: set<string>, dropped: nat, after: Store,
                  stuck: set<string>, cfg: Config)
    requires Ready(s, entry, now, cfg) && kept <= EntryNames(s.b.st.dir)
    requires ok ==> NameIsFree(s.b.st.dir, SpoolName(entry.createdAt, s.b.st.seqNo + 1))
    requires EnqueuedDir(s.b.st.dir, after.dir, kept, stuck, SpoolName(entry.createdAt, s.b.st.seqNo + 1), entry, ok)
    requires after.seqNo == s.b.st.seqNo + 1 && after.droppedTotal == dropped
    requires mid.holder.Writing? && SameElse(s.(clock := now), mid)
    requires mid.b.st == Store(s.b.st.dir - (EntryNames(s.b.st.dir) - kept - stuck), s.b.st.seqNo, dropped)
    ensures Enabled(mid, Write(entry, ok), cfg) && Enqueued(s, Apply(mid, Write(entry, ok), cfg), entry, now, ok, after)
  {
    StaysFree(s.b.st.dir, EntryNames(s.b.st.dir) - kept - stuck, SpoolName(entry.createdAt, s.b.st.seqNo + 1));
    WriteAlike(mid.b, after.dir, kept, stuck, entry, ok, s.b.st.dir);
  }

  /** What Spool's enqueue promises when there is a spool directory and no flush runs beside it. */
  ghost predicate EnqueueDone(before: Store, after: Store, entry: SpoolEntry, now: int, ok: bool, kept: set<string>, toll: Toll,
                              stuck: set<string>, cap: nat, maxAge: int) {
    var name := SpoolName(entry.createdAt, before.seqNo + 1);
    && cap > 0 && PrunedAlone(EntryNames(before.dir), kept, toll, now - maxAge, cap - 1, stuck)
    && EnqueuedDir(before.dir, after.dir, kept, stuck, name, entry, ok) && (ok ==> NameIsFree(before.dir, name))
    && after.seqNo == before.seqNo + 1 && after.droppedTotal == before.droppedTotal + Counted(toll.fates)
  }

  /** The whole of it. */
  lemma EnqueueRun(s: State, after: Store, entry: SpoolEntry, now: int, ok: bool, kept: set<string>, toll: Toll,
                   stuck: set<string>, cfg: Config) returns (run: seq<Event>)
    requires Ready(s, entry, now, cfg) && EnqueueDone(s.b.st, after, entry, now, ok, kept, toll, stuck, cfg.cap, cfg.maxAge)
    ensures Legal(s, run, cfg) && Enqueued(s, After(s, run, cfg), entry, now, ok, after)
  {
    run := PruneRun(s, now, kept, toll, stuck, cfg);
    WriteLast(s, After(s, run, cfg), entry, now, ok, kept, after.droppedTotal, after, stuck, cfg);
    Extend(s, run, Write(entry, ok), cfg);
    run := run + [Write(entry, ok)];
  }

  /** From every state of the whole model with this store, a run does what the call did. */
  ghost predicate EnqueueIsARun(before: Store, after: Store, entry: SpoolEntry, now: int, ok: bool, cap: nat, maxAge: int) {
    forall s: State, cfg: Config | s.b.st == before && cfg.cap == cap && cfg.maxAge == maxAge && Ready(s, entry, now, cfg) ::
      EnqueueCanRun(s, entry, now, ok, after, cfg)
  }

  lemma EnqueueRefines(before: Store, after: Store, entry: SpoolEntry, now: int, ok: bool, kept: set<string>, toll: Toll,
                    stuck: set<string>, cap: nat, maxAge: int)
    requires EnqueueDone(before, after, entry, now, ok, kept, toll, stuck, cap, maxAge)
    ensures EnqueueIsARun(before, after, entry, now, ok, cap, maxAge)
  {
    forall s: State, cfg: Config | s.b.st == before && cfg.cap == cap && cfg.maxAge == maxAge && Ready(s, entry, now, cfg)
      ensures EnqueueCanRun(s, entry, now, ok, after, cfg)
    {
      var run := EnqueueRun(s, after, entry, now, ok, kept, toll, stuck, cfg);
    }
  }

  // ---------------------------------------------------------------- a flush

  /** What the engine has resolved by then. */
  function Results(names: seq<string>, outcomes: seq<Outcome>, before: map<string, SpoolEntry>): map<string, SpoolEntry>
    requires |outcomes| <= |names|
  {
    if outcomes == [] then before
    else
      var n := |outcomes| - 1;
      var earlier := Results(names, outcomes[..n], before);
      if outcomes[n].Resolved? then earlier[names[n] := outcomes[n].e] else earlier
  }

  /** Only this flusher has moved, to w; the settled files that can be removed are gone. */
  ghost predicate FlushedTo(s: State, s': State, f: nat, w: Flusher, names: seq<string>, outcomes: seq<Outcome>, stuck: set<string>)
    requires |outcomes| <= |names|
  {
    && IsFlusher(s, f) && s'.flushers == s.flushers[f := w] && s'.holder == s.holder && s'.clock == s.clock
    && s'.b.st == s.b.st.(dir := s.b.st.dir - (Settled(names, outcomes) - stuck)) && s'.b.accepted == s.b.accepted
    && s'.b.resolved == Results(names, outcomes, s.b.resolved)
  }

  /** The steps that give an outcome. */
  function StepsOf(f: nat, o: Outcome, name: string, stuck: set<string>): seq<Event> {
    match o
    case Unreadable => [Read(f)]
    case Resolved(_) => [Read(f), Deliver(f, true), Remove(f, name !in stuck)]
    case Paused(_) => [Read(f), Deliver(f, false)]
    case _ => [Read(f), Remove(f, name !in stuck)]
  }

  /** What they come to. */
  ghost predicate Came(s: State, s': State, f: nat, o: Outcome, name: string, rest: seq<string>, stuck: set<string>)
    requires IsFlusher(s, f) && s.flushers[f].Walking?
  {
    && s'.flushers == s.flushers[f := if o.Paused? then Finished else Walking(rest, s.flushers[f].at)]
    && s'.holder == s.holder && s'.clock == s.clock && s'.b.accepted == s.b.accepted
    && s'.b.st == (if o.Settles() then FlushUnlinked(s.b.st, name, name !in stuck) else s.b.st)
    && s'.b.resolved == (if o.Resolved? then s.b.resolved[name := o.e] else s.b.resolved)
  }

  lemma ReadRun(s: State, f: nat, o: Outcome, i: nat, accepts: set<nat>, stuck: set<string>, cfg: Config) returns (run: seq<Event>)
    requires cfg.cap > 0 && IsFlusher(s, f) && s.flushers[f].Walking? && s.flushers[f].todo != []
    requires Matches(o, s.b.st.dir, s.flushers[f].todo[0]) && Sound(o, i, s.flushers[f].at - cfg.maxAge, accepts)
    ensures run == StepsOf(f, o, s.flushers[f].todo[0], stuck) && Legal(s, run, cfg)
    ensures Came(s, After(s, run, cfg), f, o, s.flushers[f].todo[0], s.flushers[f].todo[1..], stuck)
  {
    var name := s.flushers[f].todo[0];
    run := [Read(f)];
    assert run[1..] == [];
    if o.Resolved? {
      Extend(s, run, Deliver(f, true), cfg);
      run := run + [Deliver(f, true)];
    }
    if o.Paused? {
      Extend(s, run, Deliver(f, false), cfg);
      run := run + [Deliver(f, false)];
    }
    if o.Settles() {
      Extend(s, run, Remove(f, name !in stuck), cfg);
      run := run + [Remove(f, name !in stuck)];
    }
  }

  lemma FlushedOne(s: State, mid: State, s': State, f: nat, at: int, names: seq<string>, outcomes: seq<Outcome>, o: Outcome, stuck: set<string>)
    requires |outcomes| < |names| && FlushedTo(s, mid, f, Walking(names[|outcomes|..], at), names, outcomes, stuck)
    requires Came(mid, s', f, o, names[|outcomes|], names[|outcomes| + 1..], stuck)
    ensures FlushedTo(s, s', f, if o.Paused? then Finished else Walking(names[|outcomes| + 1..], at), names, outcomes + [o], stuck)
  {
    SettledMore(names, outcomes, o);
    assert (outcomes + [o])[..|outcomes|] == outcomes;
    var gone := Settled(names, outcomes) - stuck;
    assert s.b.st.dir - gone - {names[|outcomes|]} == s.b.st.dir - (gone + {names[|outcomes|]});
  }

  /** All names before the last one were passed. */
  predicate NonePaused(outcomes: seq<Outcome>) { forall i :: 0 <= i < |outcomes| ==> !outcomes[i].Paused? }

  ghost predicate Fitting(s: State, names: seq<string>, outcomes: seq<Outcome>, cutoff: int, accepts: set<nat>) {
    && |outcomes| <= |names| && Distinct(names)
    && forall i :: 0 <= i < |outcomes| ==> Matches(outcomes[i], s.b.st.dir, names[i]) && Sound(outcomes[i], i, cutoff, accepts)
  }

  lemma NextStillFits(s: State, mid: State, f: nat, w: Flusher, names: seq<string>, outcomes: seq<Outcome>, o: Outcome, stuck: set<string>)
    requires |outcomes| < |names| && Distinct(names) && FlushedTo(s, mid, f, w, names, outcomes, stuck)
    requires Matches(o, s.b.st.dir, names[|outcomes|])
    ensures Matches(o, mid.b.st.dir, names[|outcomes|])
  {
    SettledNames(names, outcomes);
    NextName(names, |outcomes|);
  }

  /** The flusher goes through the names as the outcomes say. */
  lemma {:induction false} WalkRun(s: State, f: nat, at: int, names: seq<string>, outcomes: seq<Outcome>, accepts: set<nat>,
                                   stuck: set<string>, cfg: Config) returns (run: seq<Event>)
    requires cfg.cap > 0 && IsFlusher(s, f) && s.flushers[f] == Walking(names, at)
    requires Fitting(s, names, outcomes, at - cfg.maxAge, accepts) && NonePaused(outcomes)
    ensures Legal(s, run, cfg) && FlushedTo(s, After(s, run, cfg), f, Walking(names[|outcomes|..], at), names, outcomes, stuck)
    decreases |outcomes|
  {
    if outcomes == [] {
      run := [];
      assert names[0..] == names && s.flushers[f := s.flushers[f]] == s.flushers && Settled(names, []) - stuck == {};
    } else {
      run := WalkOneMore(s, f, at, names, outcomes, accepts, stuck, cfg);
    }
  }

  lemma {:induction false} WalkOneMore(s: State, f: nat, at: int, names: seq<string>, outcomes: seq<Outcome>, accepts: set<nat>,
                                       stuck: set<string>, cfg: Config) returns (run: seq<Event>)
    requires cfg.cap > 0 && IsFlusher(s, f) && s.flushers[f] == Walking(names, at) && outcomes != []
    requires Fitting(s, names, outcomes, at - cfg.maxAge, accepts) && NonePaused(outcomes[..|outcomes| - 1])
    ensures Legal(s, run, cfg)
    ensures FlushedTo(s, After(s, run, cfg), f,
              if outcomes[|outcomes| - 1].Paused? then Finished else Walking(names[|outcomes|..], at), names, outcomes, stuck)
    decreases |outcomes|, 0
  {
    var n := |outcomes| - 1;
    var o := outcomes[n];
    run := WalkRun(s, f, at, names, outcomes[..n], accepts, stuck, cfg);
    var mid := After(s, run, cfg);
    NextStillFits(s, mid, f, Walking(names[n..], at), names, outcomes[..n], o, stuck);
    assert names[n..][0] == names[n] && names[n..][1..] == names[n + 1..];
    var more := ReadRun(mid, f, o, n, accepts, stuck, cfg);
    FlushedOne(s, mid, After(mid, more, cfg), f, at, names, outcomes[..n], o, stuck);
    assert outcomes == outcomes[..n] + [o];
    Chain(s, run, more, cfg);
    run := run + more;
  }

  /** To the end of the flush: a refusal ends it, and so does a cancellation. */
  lemma WholeWalk(s: State, f: nat, at: int, names: seq<string>, outcomes: seq<Outcome>, cancelAt: nat, accepts: set<nat>,
                  stuck: set<string>, cfg: Config) returns (run: seq<Event>, w: Flusher)
    requires cfg.cap > 0 && IsFlusher(s, f) && s.flushers[f] == Walking(names, at)
    requires Fitting(s, names, outcomes, at - cfg.maxAge, accepts) && Judged(outcomes, at - cfg.maxAge, cancelAt, accepts)
    ensures Legal(s, run, cfg) && Over(w) && FlushedTo(s, After(s, run, cfg), f, w, names, outcomes, stuck)
  {
    w := Finished;
    if !Unrefused(outcomes) {
      run := WalkOneMore(s, f, at, names, outcomes, accepts, stuck, cfg);
    } else {
      run := WalkRun(s, f, at, names, outcomes, accepts, stuck, cfg);
      if |outcomes| < |names| {
        Extend(s, run, Cancel(f), cfg);
        run := run + [Cancel(f)];
      } else {
        w := Walking(names[|outcomes|..], at);
      }
    }
  }

  /** What a flush beside which nothing happens leaves of the whole state. */
  ghost predicate Flushed(s: State, s': State, now: int, names: seq<string>, outcomes: seq<Outcome>, after: Store)
    requires |outcomes| <= |names|
  {
    && |s'.flushers| == |s.flushers| + 1 && s'.flushers[..|s.flushers|] == s.flushers && Over(s'.flushers[|s.flushers|])
    && s'.holder == s.holder && s'.clock == now && s'.b.st == after && s'.b.accepted == s.b.accepted
    && s'.b.resolved == Results(names, outcomes, s.b.resolved)
  }

  ghost predicate FlushCanRun(s: State, now: int, names: seq<string>, outcomes: seq<Outcome>, after: Store, cfg: Config)
    requires cfg.cap > 0 && |outcomes| <= |names|
  {
    exists run :: Legal(s, run, cfg) && Flushed(s, After(s, run, cfg), now, names, outcomes, after)
  }

  /** What Spool's flush promises when nobody else changes the directory. */
  ghost predicate FlushDone(before: Store, after: Store, now: int, names: seq<string>, outcomes: seq<Outcome>, cancelAt: nat, accepts: set<nat>,
                            stuck: set<string>, maxAge: int) {
    && Listing(names, EntryNames(before.dir)) && |outcomes| <= |names| && Judged(outcomes, now - maxAge, cancelAt, accepts)
    && (forall i :: 0 <= i < |outcomes| ==> Matches(outcomes[i], before.dir, names[i]))
    && after == before.(dir := before.dir - (Settled(names, outcomes) - stuck))
  }

  lemma BeginFlushRun(s: State, names: seq<string>, now: int, cfg: Config)
    requires cfg.cap > 0 && s.holder.Free? && s.clock <= now && Listing(names, EntryNames(s.b.st.dir))
    ensures Legal(s, [BeginFlush(names, now)], cfg)
    ensures After(s, [BeginFlush(names, now)], cfg) == s.(flushers := s.flushers + [Walking(names, now)], clock := now)
  {
    assert [BeginFlush(names, now)][1..] == [];
  }

  lemma FlushRun(s: State, after: Store, now: int, names: seq<string>, outcomes: seq<Outcome>, cancelAt: nat, accepts: set<nat>,
                 stuck: set<string>, cfg: Config) returns (run: seq<Event>)
    requires cfg.cap > 0 && s.holder.Free? && s.clock <= now
    requires FlushDone(s.b.st, after, now, names, outcomes, cancelAt, accepts, stuck, cfg.maxAge)
    ensures Legal(s, run, cfg) && Flushed(s, After(s, run, cfg), now, names, outcomes, after)
  {
    var begin := [BeginFlush(names, now)];
    BeginFlushRun(s, names, now, cfg);
    SortedIsDistinct(names);
    var more, w := WholeWalk(After(s, begin, cfg), |s.flushers|, now, names, outcomes, cancelAt, accepts, stuck, cfg);
    Chain(s, begin, more, cfg);
    run := begin + more;
  }

  /** From every state of the whole model with this store and the lock free, a run does what the call did. */
  ghost predicate FlushIsARun(before: Store, after: Store, now: int, names: seq<string>, outcomes: seq<Outcome>, maxAge: int)
    requires |outcomes| <= |names|
  {
    forall s: State, cfg: Config | s.b.st == before && cfg.cap > 0 && cfg.maxAge == maxAge && s.holder.Free? && s.clock <= now ::
      FlushCanRun(s, now, names, outcomes, after, cfg)
  }

  lemma FlushRefines(before: Store, after: Store, now: int, names: seq<string>, outcomes: seq<Outcome>, cancelAt: nat, accepts: set<nat>,
                  stuck: set<string>, maxAge: int)
    requires FlushDone(before, after, now, names, outcomes, cancelAt, accepts, stuck, maxAge)
    ensures FlushIsARun(before, after, now, names, outcomes, maxAge)
  {
    forall s: State, cfg: Config | s.b.st == before && cfg.cap > 0 && cfg.maxAge == maxAge && s.holder.Free? && s.clock <= now
      ensures FlushCanRun(s, now, names, outcomes, after, cfg)
    {
      var run := FlushRun(s, after, now, names, outcomes, cancelAt, accepts, stuck, cfg);
    }
  }
}
