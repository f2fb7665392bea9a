/** What every interleaving of one enqueue and any number of flushes keeps, and what it costs. */
module SpoolLedger {
  import opened SpoolNames
  import opened SpoolFiles
  import opened SpoolState

  // ---------------------------------------------------------------- the invariant

  predicate AllNewer(newer: set<string>, n: string) { forall m :: m in newer ==> Before(n, m) }

  /** At least `keep` of the names are newer. */
  ghost predicate Outdone(n: string, names: set<string>, keep: int) {
    exists newer: set<string> :: AllNewer(newer, n) && newer <= names && |newer| >= keep
  }

  /** An enqueue found the entry unexpired, with enough newer ones to leave no room for it. */
  ghost predicate Outranked(shot: Shot, n: string, cfg: Config) {
    var unexpired := Unexpired(shot.entries, OlderThan(shot.at - cfg.maxAge));
    n in unexpired && Outdone(n, unexpired, cfg.cap - 1)
  }

  /** A recorded and valid reason for the accepted entry to be gone. */
  ghost predicate Fated(b: Books, n: string, cfg: Config)
    requires n in b.accepted
  {
    || (n in b.resolved && b.resolved[n] == b.accepted[n].entry)
    || (n in b.expired && b.accepted[n].entry.createdAt + cfg.maxAge < b.expired[n])
    || (n in b.evicted && Outranked(b.evicted[n], n, cfg))
  }

  /** Accepted in this run under a name that was no entry when the run began. */
  predicate Tracked(b: Books, n: string, dir0: Dir) { n in b.accepted && !IsEntry(dir0, n) }

  ghost predicate Kept(b: Books, n: string, cfg: Config)
    requires n in b.accepted
  {
    && (n in b.st.dir ==> b.st.dir[n] == Entry(b.accepted[n].entry))
    && (n in b.st.dir || Fated(b, n, cfg))
  }

  predicate WellNamed(b: Books, n: string)
    requires n in b.accepted
  {
    var a := b.accepted[n];
    n == SpoolName(a.entry.createdAt, a.serial) && IsInt64(a.entry.createdAt) && a.serial <= b.st.seqNo
  }

  predicate Known(b: Books, n: string, dir0: Dir) { IsEntry(dir0, n) || n in b.accepted }

  predicate AllKnown(b: Books, names: seq<string>, dir0: Dir) {
    forall i :: 0 <= i < |names| ==> Known(b, names[i], dir0)
  }

  ghost predicate BooksInv(b: Books, dir0: Dir, cfg: Config) {
    && (forall n :: IsEntry(b.st.dir, n) ==> Known(b, n, dir0))
    && (forall n :: n in b.accepted ==> WellNamed(b, n))
    && (forall n :: Tracked(b, n, dir0) ==> Kept(b, n, cfg))
  }

  ghost predicate HolderInv(b: Books, h: Holder, dir0: Dir, cfg: Config) {
    match h
    case Expiring(todo, survivors, shot) =>
      && Sorted(survivors + todo) && AllKnown(b, todo, dir0) && AllKnown(b, survivors, dir0)
      && Elems(todo) <= shot.entries && Elems(survivors) <= Unexpired(shot.entries, OlderThan(shot.at - cfg.maxAge))
    case Evicting(survivors, shot) =>
      && Sorted(survivors) && AllKnown(b, survivors, dir0)
      && Elems(survivors) <= Unexpired(shot.entries, OlderThan(shot.at - cfg.maxAge))
    case _ => true
  }

  ghost predicate FlusherInv(b: Books, w: Flusher, dir0: Dir, cfg: Config) {
    match w
    case Walking(todo, _) => AllKnown(b, todo, dir0)
    case Holding(n, entry, rest, _) =>
      Known(b, n, dir0) && AllKnown(b, rest, dir0) && (Tracked(b, n, dir0) ==> entry == b.accepted[n].entry)
    case Removing(n, rest, _) =>
      Known(b, n, dir0) && AllKnown(b, rest, dir0) && (Tracked(b, n, dir0) ==> Fated(b, n, cfg))
    case Finished => true
  }

  ghost predicate Inv(s: State, dir0: Dir, cfg: Config) {
    && BooksInv(s.b, dir0, cfg)
    && HolderInv(s.b, s.holder, dir0, cfg)
    && forall f :: 0 <= f < |s.flushers| ==> FlusherInv(s.b, s.flushers[f], dir0, cfg)
  }

  /** Nothing that a goroutine has in hand changes its meaning from `b` to `c`. */
  ghost predicate Extends(b: Books, c: Books, dir0: Dir, cfg: Config) {
    && (forall n :: n in b.accepted ==> n in c.accepted)
    && (forall n :: Tracked(b, n, dir0) ==> c.accepted[n] == b.accepted[n] && (Fated(b, n, cfg) ==> Fated(c, n, cfg)))
  }

  lemma AllKnownExtends(b: Books, c: Books, names: seq<string>, dir0: Dir)
    requires AllKnown(b, names, dir0) && forall n :: n in b.accepted ==> n in c.accepted
    ensures AllKnown(c, names, dir0)
  {
  }

  lemma FlusherExtends(b: Books, c: Books, w: Flusher, dir0: Dir, cfg: Config)
    requires FlusherInv(b, w, dir0, cfg) && Extends(b, c, dir0, cfg)
    ensures FlusherInv(c, w, dir0, cfg)
  {
    match w
    case Walking(todo, _) => AllKnownExtends(b, c, todo, dir0);
    case Holding(_, _, rest, _) => AllKnownExtends(b, c, rest, dir0);
    case Removing(_, rest, _) => AllKnownExtends(b, c, rest, dir0);
    case Finished =>
  }

  /** The books change and one flusher with them. */
  lemma Advance(s: State, f: nat, to: (Books, Flusher), dir0: Dir, cfg: Config)
    requires Inv(s, dir0, cfg) && IsFlusher(s, f)
    requires BooksInv(to.0, dir0, cfg) && Extends(s.b, to.0, dir0, cfg) && FlusherInv(to.0, to.1, dir0, cfg)
    ensures Inv(With(s, f, to), dir0, cfg)
  {
    HolderExtends(s.b, to.0, s.holder, dir0, cfg);
    forall g | 0 <= g < |s.flushers| ensures FlusherInv(to.0, With(s, f, to).flushers[g], dir0, cfg) {
      if g != f { FlusherExtends(s.b, to.0, s.flushers[g], dir0, cfg); }
    }
  }

  lemma HolderExtends(b: Books, c: Books, h: Holder, dir0: Dir, cfg: Config)
    requires HolderInv(b, h, dir0, cfg) && Extends(b, c, dir0, cfg)
    ensures HolderInv(c, h, dir0, cfg)
  {
    match h
    case Expiring(todo, survivors, _) =>
      AllKnownExtends(b, c, todo, dir0);
      AllKnownExtends(b, c, survivors, dir0);
    case Evicting(survivors, _) => AllKnownExtends(b, c, survivors, dir0);
    case _ =>
  }

  /** The books change and the holder with them. */
  lemma AdvanceHolder(s: State, b: Books, h: Holder, dir0: Dir, cfg: Config)
    requires Inv(s, dir0, cfg)
    requires BooksInv(b, dir0, cfg) && Extends(s.b, b, dir0, cfg) && HolderInv(b, h, dir0, cfg)
    ensures Inv(s.(b := b, holder := h), dir0, cfg)
  {
    forall g | 0 <= g < |s.flushers| ensures FlusherInv(b, s.flushers[g], dir0, cfg) {
      FlusherExtends(s.b, b, s.flushers[g], dir0, cfg);
    }
  }

  lemma ExtendsTwice(a: Books, b: Books, c: Books, dir0: Dir, cfg: Config)
    requires Extends(a, b, dir0, cfg) && Extends(b, c, dir0, cfg)
    ensures Extends(a, c, dir0, cfg)
  {
    forall n | Tracked(a, n, dir0) ensures c.accepted[n] == a.accepted[n] && (Fated(a, n, cfg) ==> Fated(c, n, cfg)) {
      assert Tracked(b, n, dir0);
    }
  }

  // ---------------------------------------------------------------- changes to the books

  /** A file may have gone; nothing is recorded. */
  predicate Shrunk(b: Books, c: Books, n: string) {
    && c.accepted == b.accepted && c.resolved == b.resolved && c.expired == b.expired && c.evicted == b.evicted
    && c.st.seqNo == b.st.seqNo && (c.st.dir == b.st.dir || c.st.dir == b.st.dir - {n})
  }

  lemma ShrunkKeeps(b: Books, c: Books, n: string, dir0: Dir, cfg: Config)
    requires BooksInv(b, dir0, cfg) && Shrunk(b, c, n)
    requires c.st.dir == b.st.dir || (Tracked(b, n, dir0) ==> Fated(b, n, cfg))
    ensures BooksInv(c, dir0, cfg) && Extends(b, c, dir0, cfg)
  {
    forall m | m in c.accepted ensures WellNamed(c, m) {
      assert WellNamed(b, m);
    }
    forall m | Tracked(c, m, dir0) ensures Kept(c, m, cfg) {
      assert Tracked(b, m, dir0) && Kept(b, m, cfg);
    }
    forall m | IsEntry(c.st.dir, m) ensures Known(c, m, dir0) {
      assert IsEntry(b.st.dir, m);
    }
  }

  /** A note in the record, nothing else. */
  predicate Annotated(b: Books, c: Books) { c.st == b.st && c.accepted == b.accepted }

  lemma NoteKeeps(b: Books, c: Books, dir0: Dir, cfg: Config)
    requires BooksInv(b, dir0, cfg) && Annotated(b, c)
    requires forall m :: Tracked(b, m, dir0) && Fated(b, m, cfg) ==> Fated(c, m, cfg)
    ensures BooksInv(c, dir0, cfg) && Extends(b, c, dir0, cfg)
  {
    forall m | m in c.accepted ensures WellNamed(c, m) {
      assert WellNamed(b, m);
    }
    forall m | Tracked(c, m, dir0) ensures Kept(c, m, cfg) {
      assert Tracked(b, m, dir0) && Kept(b, m, cfg);
    }
  }

  lemma MarkExpired(b: Books, n: string, at: int, dir0: Dir, cfg: Config)
    requires BooksInv(b, dir0, cfg) && (Tracked(b, n, dir0) ==> b.accepted[n].entry.createdAt + cfg.maxAge < at)
    ensures var c := b.(expired := b.expired[n := at]);
            BooksInv(c, dir0, cfg) && Extends(b, c, dir0, cfg) && (Tracked(b, n, dir0) ==> Fated(c, n, cfg))
  {
    NoteKeeps(b, b.(expired := b.expired[n := at]), dir0, cfg);
  }

  lemma MarkResolved(b: Books, n: string, entry: SpoolEntry, dir0: Dir, cfg: Config)
    requires BooksInv(b, dir0, cfg) && (Tracked(b, n, dir0) ==> b.accepted[n].entry == entry)
    ensures var c := b.(resolved := b.resolved[n := entry]);
            BooksInv(c, dir0, cfg) && Extends(b, c, dir0, cfg) && (Tracked(b, n, dir0) ==> Fated(c, n, cfg))
  {
    NoteKeeps(b, b.(resolved := b.resolved[n := entry]), dir0, cfg);
  }

  lemma MarkEvicted(b: Books, n: string, shot: Shot, dir0: Dir, cfg: Config)
    requires BooksInv(b, dir0, cfg) && Outranked(shot, n, cfg)
    ensures var c := b.(evicted := b.evicted[n := shot]);
            BooksInv(c, dir0, cfg) && Extends(b, c, dir0, cfg) && (Tracked(b, n, dir0) ==> Fated(c, n, cfg))
  {
    NoteKeeps(b, b.(evicted := b.evicted[n := shot]), dir0, cfg);
  }

  lemma NextSerialKeeps(b: Books, dir0: Dir, cfg: Config)
    requires BooksInv(b, dir0, cfg)
    ensures BooksInv(NextSerial(b), dir0, cfg) && Extends(b, NextSerial(b), dir0, cfg)
  {
    var c := NextSerial(b);
    forall m | m in c.accepted ensures WellNamed(c, m) {
      assert WellNamed(b, m);
    }
    forall m | Tracked(c, m, dir0) ensures Kept(c, m, cfg) {
      assert Tracked(b, m, dir0) && Kept(b, m, cfg);
    }
  }

  lemma AddedKeeps(b: Books, n: string, a: Accepted, dir0: Dir, cfg: Config)
    requires BooksInv(b, dir0, cfg) && n !in b.accepted
    requires n == SpoolName(a.entry.createdAt, a.serial) && IsInt64(a.entry.createdAt) && a.serial <= b.st.seqNo
    ensures BooksInv(Added(b, n, a), dir0, cfg) && Extends(b, Added(b, n, a), dir0, cfg)
  {
    AddedStored(b, n, a, dir0, cfg);
    AddedKept(b, n, a, dir0, cfg);
  }

  lemma AddedStored(b: Books, n: string, a: Accepted, dir0: Dir, cfg: Config)
    requires BooksInv(b, dir0, cfg) && n !in b.accepted
    requires n == SpoolName(a.entry.createdAt, a.serial) && IsInt64(a.entry.createdAt) && a.serial <= b.st.seqNo
    ensures forall m :: m in Added(b, n, a).accepted ==> WellNamed(Added(b, n, a), m)
    ensures forall m :: IsEntry(Added(b, n, a).st.dir, m) ==> Known(Added(b, n, a), m, dir0)
  {
    var c := Added(b, n, a);
    forall m | m in c.accepted ensures WellNamed(c, m) {
      if m != n { assert WellNamed(b, m); }
    }
    forall m | IsEntry(c.st.dir, m) ensures Known(c, m, dir0) {
      if m != n { assert IsEntry(b.st.dir, m); }
    }
  }

  lemma AddedKept(b: Books, n: string, a: Accepted, dir0: Dir, cfg: Config)
    requires BooksInv(b, dir0, cfg) && n !in b.accepted
    ensures forall m :: Tracked(Added(b, n, a), m, dir0) ==> Kept(Added(b, n, a), m, cfg)
    ensures Extends(b, Added(b, n, a), dir0, cfg)
  {
    var c := Added(b, n, a);
    forall m | Tracked(b, m, dir0) ensures Fated(b, m, cfg) ==> Fated(c, m, cfg) {
      assert m != n;
    }
    forall m | Tracked(c, m, dir0) ensures Kept(c, m, cfg) {
      if m != n {
        assert Tracked(b, m, dir0) && Kept(b, m, cfg);
        TmpIsNoEntry(b, n, m);
      }
    }
  }

  /** The temporary file of one entry is not another entry. */
  lemma TmpIsNoEntry(b: Books, n: string, m: string)
    requires m in b.accepted && WellNamed(b, m)
    ensures m != n + ".tmp"
  {
    TimeReadsBack(b.accepted[m].entry.createdAt, b.accepted[m].serial);
    assert (n + ".tmp")[|n| + 3] == 'p';
  }

  lemma NameIsNew(b: Books, entry: SpoolEntry)
    requires IsInt64(entry.createdAt) && forall n :: n in b.accepted ==> WellNamed(b, n)
    ensures SpoolName(entry.createdAt, b.st.seqNo + 1) !in b.accepted
  {
    var name := SpoolName(entry.createdAt, b.st.seqNo + 1);
    if name in b.accepted {
      var a := b.accepted[name];
      assert WellNamed(b, name);
      NamesAreInjective(a.entry.createdAt, a.serial, entry.createdAt, b.st.seqNo + 1);
    }
  }

  /** The new name is nobody's: its sequence number is larger than any before. */
  lemma WriteBooks(b: Books, entry: SpoolEntry, ok: bool, dir0: Dir, cfg: Config)
    requires BooksInv(b, dir0, cfg) && IsInt64(entry.createdAt)
    ensures BooksInv(WriteStep(b, entry, ok), dir0, cfg) && Extends(b, WriteStep(b, entry, ok), dir0, cfg)
  {
    NextSerialKeeps(b, dir0, cfg);
    if ok {
      NameIsNew(b, entry);
      WriteAdded(b, NextSerial(b), SpoolName(entry.createdAt, b.st.seqNo + 1), Accepted(entry, b.st.seqNo + 1), dir0, cfg);
    }
  }

  lemma WriteAdded(b: Books, next: Books, n: string, a: Accepted, dir0: Dir, cfg: Config)
    requires BooksInv(next, dir0, cfg) && Extends(b, next, dir0, cfg) && n !in next.accepted
    requires n == SpoolName(a.entry.createdAt, a.serial) && IsInt64(a.entry.createdAt) && a.serial <= next.st.seqNo
    ensures BooksInv(Added(next, n, a), dir0, cfg) && Extends(b, Added(next, n, a), dir0, cfg)
  {
    AddedKeeps(next, n, a, dir0, cfg);
    ExtendsTwice(b, next, Added(next, n, a), dir0, cfg);
  }

  // ---------------------------------------------------------------- the steps

  /** What the name says of the age, the content says too. */
  lemma ExpiredByContent(b: Books, n: string, at: int, cfg: Config)
    requires n in b.accepted && WellNamed(b, n) && Expired(n, at - cfg.maxAge)
    ensures b.accepted[n].entry.createdAt + cfg.maxAge < at
  {
    TimeReadsBack(b.accepted[n].entry.createdAt, b.accepted[n].serial);
  }

  lemma ExpireBooks(b: Books, h: Holder, works: bool, dir0: Dir, cfg: Config)
    requires BooksInv(b, dir0, cfg) && h.Expiring?
    ensures var c := ExpireStep(b, h, works, cfg).0; BooksInv(c, dir0, cfg) && Extends(b, c, dir0, cfg)
  {
    if h.todo != [] && Expired(h.todo[0], h.shot.at - cfg.maxAge) {
      var n := h.todo[0];
      var c := ExpireStep(b, h, works, cfg).0;
      if n in b.st.dir && works {
        if Tracked(b, n, dir0) { ExpiredByContent(b, n, h.shot.at, cfg); }
        MarkExpired(b, n, h.shot.at, dir0, cfg);
        var m := b.(expired := b.expired[n := h.shot.at]);
        ShrunkKeeps(m, c, n, dir0, cfg);
        ExtendsTwice(b, m, c, dir0, cfg);
      } else {
        ShrunkKeeps(b, c, n, dir0, cfg);
      }
    }
  }

  lemma ExpireHolder(b: Books, h: Holder, works: bool, dir0: Dir, cfg: Config)
    requires h.Expiring? && HolderInv(b, h, dir0, cfg)
    ensures HolderInv(b, ExpireStep(b, h, works, cfg).1, dir0, cfg)
  {
    if h.todo == [] {
      assert h.survivors + h.todo == h.survivors;
    } else {
      var name := h.todo[0];
      assert h.todo == [name] + h.todo[1..];
      if Expired(name, h.shot.at - cfg.maxAge) {
        DropMiddle(h.survivors, h.todo);
      } else {
        assert h.survivors + h.todo == (h.survivors + [name]) + h.todo[1..];
        assert name in Elems(h.todo);
      }
    }
  }

  lemma DropMiddle(a: seq<string>, b: seq<string>)
    requires Sorted(a + b) && b != []
    ensures Sorted(a + b[1..])
  {
    forall i, j | 0 <= i < j < |a + b[1..]| ensures Before((a + b[1..])[i], (a + b[1..])[j]) {
      var x, y := if i < |a| then i else i + 1, if j < |a| then j else j + 1;
      assert (a + b)[x] == (a + b[1..])[i] && (a + b)[y] == (a + b[1..])[j];
    }
  }

  lemma ExpireKeeps(s: State, works: bool, dir0: Dir, cfg: Config)
    requires Inv(s, dir0, cfg) && s.holder.Expiring?
    ensures var (b, h) := ExpireStep(s.b, s.holder, works, cfg); Inv(s.(b := b, holder := h), dir0, cfg)
  {
    var (b, h) := ExpireStep(s.b, s.holder, works, cfg);
    ExpireBooks(s.b, s.holder, works, dir0, cfg);
    ExpireHolder(s.b, s.holder, works, dir0, cfg);
    HolderExtends(s.b, b, h, dir0, cfg);
    AdvanceHolder(s, b, h, dir0, cfg);
  }

  /** The first of too many survivors is outranked by the others. */
  lemma FirstIsOutranked(survivors: seq<string>, shot: Shot, cfg: Config)
    requires Sorted(survivors) && survivors != [] && |survivors| > cfg.cap - 1
    requires Elems(survivors) <= Unexpired(shot.entries, OlderThan(shot.at - cfg.maxAge))
    ensures Outranked(shot, survivors[0], cfg)
  {
    var newer := survivors[1..];
    SortedCount(newer);
    assert survivors[0] in Elems(survivors);
    forall m | m in Elems(newer) ensures Before(survivors[0], m) && m in Elems(survivors) {
      var i :| 0 <= i < |newer| && newer[i] == m;
      assert survivors[i + 1] == m;
    }
    assert AllNewer(Elems(newer), survivors[0]) && Elems(newer) <= Unexpired(shot.entries, OlderThan(shot.at - cfg.maxAge));
  }

  lemma EvictBooks(b: Books, h: Holder, works: bool, dir0: Dir, cfg: Config)
    requires cfg.cap > 0 && BooksInv(b, dir0, cfg) && h.Evicting? && HolderInv(b, h, dir0, cfg)
    ensures var c := EvictStep(b, h, works, cfg).0; BooksInv(c, dir0, cfg) && Extends(b, c, dir0, cfg)
  {
    if |h.survivors| > cfg.cap - 1 {
      var n := h.survivors[0];
      var c := EvictStep(b, h, works, cfg).0;
      if n in b.st.dir && works {
        FirstIsOutranked(h.survivors, h.shot, cfg);
        MarkEvicted(b, n, h.shot, dir0, cfg);
        var m := b.(evicted := b.evicted[n := h.shot]);
        ShrunkKeeps(m, c, n, dir0, cfg);
        ExtendsTwice(b, m, c, dir0, cfg);
      } else {
        ShrunkKeeps(b, c, n, dir0, cfg);
      }
    }
  }

  lemma EvictHolder(b: Books, h: Holder, works: bool, dir0: Dir, cfg: Config)
    requires cfg.cap > 0 && h.Evicting? && HolderInv(b, h, dir0, cfg)
    ensures HolderInv(b, EvictStep(b, h, works, cfg).1, dir0, cfg)
  {
    if |h.survivors| > cfg.cap - 1 {
      assert h.survivors == [h.survivors[0]] + h.survivors[1..];
    }
  }

  lemma EvictKeeps(s: State, works: bool, dir0: Dir, cfg: Config)
    requires cfg.cap > 0 && Inv(s, dir0, cfg) && s.holder.Evicting?
    ensures var (b, h) := EvictStep(s.b, s.holder, works, cfg); Inv(s.(b := b, holder := h), dir0, cfg)
  {
    var (b, h) := EvictStep(s.b, s.holder, works, cfg);
    EvictBooks(s.b, s.holder, works, dir0, cfg);
    EvictHolder(s.b, s.holder, works, dir0, cfg);
    HolderExtends(s.b, b, h, dir0, cfg);
    AdvanceHolder(s, b, h, dir0, cfg);
  }

  lemma WriteKeeps(s: State, entry: SpoolEntry, ok: bool, dir0: Dir, cfg: Config)
    requires Inv(s, dir0, cfg) && IsInt64(entry.createdAt)
    ensures Inv(s.(b := WriteStep(s.b, entry, ok), holder := Free), dir0, cfg)
  {
    WriteBooks(s.b, entry, ok, dir0, cfg);
    AdvanceHolder(s, WriteStep(s.b, entry, ok), Free, dir0, cfg);
  }

  lemma ReadKeeps(s: State, f: nat, dir0: Dir, cfg: Config)
    requires Inv(s, dir0, cfg) && IsFlusher(s, f) && s.flushers[f].Walking? && s.flushers[f].todo != []
    ensures Inv(With(s, f, ReadStep(s.b, s.flushers[f], cfg)), dir0, cfg)
  {
    var w := s.flushers[f];
    assert FlusherInv(s.b, w, dir0, cfg);
    ReadBooks(s.b, w, dir0, cfg);
    Advance(s, f, ReadStep(s.b, w, cfg), dir0, cfg);
  }

  /** What it finds too old is. */
  lemma ReadTooOld(b: Books, w: Flusher, dir0: Dir, cfg: Config)
    requires BooksInv(b, dir0, cfg) && FlusherInv(b, w, dir0, cfg) && w.Walking? && w.todo != []
    requires w.todo[0] in b.st.dir && TooOld(b.st.dir[w.todo[0]], w.at - cfg.maxAge)
    ensures var (c, w') := ReadStep(b, w, cfg); BooksInv(c, dir0, cfg) && Extends(b, c, dir0, cfg) && FlusherInv(c, w', dir0, cfg)
  {
    FirstKnown(b, w.todo, dir0);
    if Tracked(b, w.todo[0], dir0) { KeptOnDisk(b, w.todo[0], dir0, cfg); }
    MarkExpired(b, w.todo[0], w.at, dir0, cfg);
  }

  lemma FirstKnown(b: Books, todo: seq<string>, dir0: Dir)
    requires AllKnown(b, todo, dir0) && todo != []
    ensures Known(b, todo[0], dir0) && AllKnown(b, todo[1..], dir0)
  {
  }

  /** An entry of this run that is on disk is the one that was accepted. */
  lemma KeptOnDisk(b: Books, n: string, dir0: Dir, cfg: Config)
    requires BooksInv(b, dir0, cfg) && n in b.st.dir && Tracked(b, n, dir0)
    ensures b.st.dir[n] == Entry(b.accepted[n].entry)
  {
    assert Kept(b, n, cfg);
  }

  lemma ReadInTime(b: Books, w: Flusher, dir0: Dir, cfg: Config)
    requires BooksInv(b, dir0, cfg) && FlusherInv(b, w, dir0, cfg) && w.Walking? && w.todo != []
    requires !(w.todo[0] in b.st.dir && TooOld(b.st.dir[w.todo[0]], w.at - cfg.maxAge))
    ensures var (c, w') := ReadStep(b, w, cfg); c == b && FlusherInv(b, w', dir0, cfg)
  {
    FirstKnown(b, w.todo, dir0);
    if w.todo[0] in b.st.dir && Tracked(b, w.todo[0], dir0) { KeptOnDisk(b, w.todo[0], dir0, cfg); }
  }

  /** A flush holds the very entry that was accepted, and takes none of this run for corrupt. */
  lemma ReadBooks(b: Books, w: Flusher, dir0: Dir, cfg: Config)
    requires BooksInv(b, dir0, cfg) && FlusherInv(b, w, dir0, cfg) && w.Walking? && w.todo != []
    ensures var (c, w') := ReadStep(b, w, cfg); BooksInv(c, dir0, cfg) && Extends(b, c, dir0, cfg) && FlusherInv(c, w', dir0, cfg)
  {
    if w.todo[0] in b.st.dir && TooOld(b.st.dir[w.todo[0]], w.at - cfg.maxAge) {
      ReadTooOld(b, w, dir0, cfg);
    } else {
      ReadInTime(b, w, dir0, cfg);
    }
  }

  lemma DeliverKeeps(s: State, f: nat, done: bool, dir0: Dir, cfg: Config)
    requires Inv(s, dir0, cfg) && IsFlusher(s, f) && s.flushers[f].Holding?
    ensures Inv(With(s, f, DeliverStep(s.b, s.flushers[f], done)), dir0, cfg)
  {
    var w := s.flushers[f];
    assert FlusherInv(s.b, w, dir0, cfg);
    if done {
      MarkResolved(s.b, w.name, w.entry, dir0, cfg);
      AllKnownExtends(s.b, DeliverStep(s.b, w, done).0, w.rest, dir0);
    }
    Advance(s, f, DeliverStep(s.b, w, done), dir0, cfg);
  }

  lemma RemoveKeeps(s: State, f: nat, works: bool, dir0: Dir, cfg: Config)
    requires Inv(s, dir0, cfg) && IsFlusher(s, f) && s.flushers[f].Removing?
    ensures Inv(With(s, f, RemoveStep(s.b, s.flushers[f], works, cfg)), dir0, cfg)
  {
    var w := s.flushers[f];
    var to := RemoveStep(s.b, w, works, cfg);
    assert FlusherInv(s.b, w, dir0, cfg);
    ShrunkKeeps(s.b, to.0, w.name, dir0, cfg);
    AllKnownExtends(s.b, to.0, w.rest, dir0);
    Advance(s, f, to, dir0, cfg);
  }

  lemma ListingKnown(b: Books, names: seq<string>, dir0: Dir, cfg: Config)
    requires BooksInv(b, dir0, cfg) && Listing(names, EntryNames(b.st.dir))
    ensures AllKnown(b, names, dir0) && Sorted(names)
  {
    forall i | 0 <= i < |names| ensures Known(b, names[i], dir0) {
      assert names[i] in Elems(names);
      assert IsEntry(b.st.dir, names[i]);
    }
  }

  lemma BeginKeeps(s: State, names: seq<string>, at: int, dir0: Dir, cfg: Config)
    requires Inv(s, dir0, cfg) && s.holder.Free? && Listing(names, EntryNames(s.b.st.dir))
    ensures Inv(s.(holder := Expiring(names, [], Shot(EntryNames(s.b.st.dir), at)), clock := at), dir0, cfg)
    ensures Inv(s.(flushers := s.flushers + [Walking(names, at)], clock := at), dir0, cfg)
  {
    ListingKnown(s.b, names, dir0, cfg);
    assert [] + names == names;
  }

  lemma StepKeepsInv(s: State, e: Event, dir0: Dir, cfg: Config)
    requires cfg.cap > 0 && Inv(s, dir0, cfg) && Enabled(s, e, cfg)
    ensures Inv(Apply(s, e, cfg), dir0, cfg)
  {
    match e
    case BeginEnqueue(names, at) => BeginKeeps(s, names, at, dir0, cfg);
    case ExpireNext(works) => ExpireKeeps(s, works, dir0, cfg);
    case EvictNext(works) => EvictKeeps(s, works, dir0, cfg);
    case Write(entry, ok) => WriteKeeps(s, entry, ok, dir0, cfg);
    case BeginFlush(names, at) => BeginKeeps(s, names, at, dir0, cfg);
    case Read(f) => ReadKeeps(s, f, dir0, cfg);
    case Deliver(f, done) => DeliverKeeps(s, f, done, dir0, cfg);
    case Remove(f, works) => RemoveKeeps(s, f, works, dir0, cfg);
    case Cancel(f) => Advance(s, f, (s.b, Finished), dir0, cfg);
  }

  lemma {:induction false} RunKeepsInv(s: State, run: seq<Event>, dir0: Dir, cfg: Config)
    requires cfg.cap > 0 && Inv(s, dir0, cfg) && Legal(s, run, cfg)
    ensures Inv(After(s, run, cfg), dir0, cfg)
    decreases |run|
  {
    if run != [] {
      StepKeepsInv(s, run[0], dir0, cfg);
      RunKeepsInv(Apply(s, run[0], cfg), run[1..], dir0, cfg);
    }
  }
}
