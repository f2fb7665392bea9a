/** The spool over a whole process run as a transition system: one enqueue at a time holds the lock, any
    number of flushes walk beside it, and their steps interleave freely. */
module SpoolState {
  import opened SpoolNames
  import opened SpoolFiles

  /** The process's limits, and the clock when it started. */
  datatype Config = Config(cap: nat, maxAge: int, start: int)

  // ---------------------------------------------------------------- what the object holds

  datatype Store = Store(dir: Dir, seqNo: nat, droppedTotal: nat)

  predicate Clashes(dir: Dir, name: string) { name in dir && dir[name].Folder? }

  /** No directory stands where the entry or its temporary file goes. */
  predicate NameIsFree(dir: Dir, name: string) { !Clashes(dir, name) && !Clashes(dir, name + ".tmp") }

  /** A prune's removal counts unless the system refuses it, so a file already gone counts too. */
  function PruneUnlinked(st: Store, name: string, works: bool): Store {
    if name !in st.dir then st.(droppedTotal := st.droppedTotal + 1)
    else if works then st.(dir := st.dir - {name}, droppedTotal := st.droppedTotal + 1)
    else st
  }

  function FlushUnlinked(st: Store, name: string, works: bool): Store {
    if works then st.(dir := st.dir - {name}) else st
  }

  /** The rename puts the entry in place of whatever had its name; the temporary file is gone. */
  function Written(st: Store, name: string, entry: SpoolEntry): Store {
    st.(dir := (st.dir - {name + ".tmp"})[name := Entry(entry)])
  }

  // ---------------------------------------------------------------- what became of entries

  datatype Accepted = Accepted(entry: SpoolEntry, serial: nat)

  /** The entries as an enqueue found them, and when. */
  datatype Shot = Shot(entries: set<string>, at: int)

  /** Files that went although the engine had not resolved what they held: `pruned` over capacity or age,
      `aged` by a flush for their age, `stray` by a flush otherwise, being corrupt or having taken the
      place of the file it had read.  And removals by a prune that discarded nothing: of a file a flush had
      removed first (`beaten`), or of an entry already resolved (`late`). */
  datatype Tally = Tally(pruned: nat, aged: nat, stray: nat, beaten: nat, late: nat)

  /** What became of the entry now under a name: resolved by the engine, found expired at some time, or
      evicted from what an enqueue found. */
  datatype Books = Books(
    st: Store, accepted: map<string, Accepted>,
    resolved: map<string, SpoolEntry>, expired: map<string, int>, evicted: map<string, Shot>, tally: Tally)

  /** The enqueue that holds the lock. */
  datatype Holder = Free | Expiring(todo: seq<string>, survivors: seq<string>, shot: Shot) | Evicting(survivors: seq<string>, shot: Shot) | Writing

  /** One flush, begun at a time: between two names, with an entry read, or about to remove a name. */
  datatype Flusher =
    | Walking(todo: seq<string>, at: int)
    | Holding(name: string, entry: SpoolEntry, rest: seq<string>, at: int)
    | Removing(name: string, rest: seq<string>, at: int)
    | Finished

  datatype State = State(b: Books, clock: int, holder: Holder, flushers: seq<Flusher>)

  datatype Event =
    | BeginEnqueue(names: seq<string>, at: int)
    | ExpireNext(works: bool)
    | EvictNext(works: bool)
    | Write(entry: SpoolEntry, ok: bool)
    | BeginFlush(names: seq<string>, at: int)
    | Read(f: nat)
    | Deliver(f: nat, done: bool)
    | Remove(f: nat, works: bool)
    | Cancel(f: nat)

  function Start(dir: Dir, cfg: Config): State {
    State(Books(Store(dir, 0, 0), map[], map[], map[], map[], Tally(0, 0, 0, 0, 0)), cfg.start, Free, [])
  }

  predicate IsFlusher(s: State, f: nat) { f < |s.flushers| }

  /** The clock does not go back, and an entry is created while the process runs. */
  ghost predicate Enabled(s: State, e: Event, cfg: Config) {
    match e
    case BeginEnqueue(names, at) => s.holder.Free? && Listing(names, EntryNames(s.b.st.dir)) && s.clock <= at
    case ExpireNext(_) => s.holder.Expiring?
    case EvictNext(_) => s.holder.Evicting?
    case Write(entry, ok) =>
      && s.holder.Writing? && IsInt64(entry.createdAt) && cfg.start <= entry.createdAt <= s.clock
      && (ok ==> NameIsFree(s.b.st.dir, SpoolName(entry.createdAt, s.b.st.seqNo + 1)))
    case BeginFlush(names, at) => s.holder.Free? && Listing(names, EntryNames(s.b.st.dir)) && s.clock <= at
    case Read(f) => IsFlusher(s, f) && s.flushers[f].Walking? && s.flushers[f].todo != []
    case Deliver(f, _) => IsFlusher(s, f) && s.flushers[f].Holding?
    case Remove(f, _) => IsFlusher(s, f) && s.flushers[f].Removing?
    case Cancel(f) => IsFlusher(s, f) && s.flushers[f].Walking?
  }

  /** The file holds an entry that the engine has resolved. */
  predicate Spent(b: Books, name: string) {
    name in b.resolved && name in b.st.dir && b.st.dir[name] == Entry(b.resolved[name])
  }

  function Pruned(b: Books, name: string, works: bool): Books {
    b.(st := PruneUnlinked(b.st, name, works),
       tally := if name !in b.st.dir then b.tally.(beaten := b.tally.beaten + 1)
                else if !works then b.tally
                else if Spent(b, name) then b.tally.(late := b.tally.late + 1)
                else b.tally.(pruned := b.tally.pruned + 1))
  }

  function ExpireStep(b: Books, h: Holder, works: bool, cfg: Config): (Books, Holder)
    requires h.Expiring?
  {
    if h.todo == [] then (b, Evicting(h.survivors, h.shot))
    else
      var name := h.todo[0];
      if Expired(name, h.shot.at - cfg.maxAge) then
        var c := if name in b.st.dir && works then b.(expired := b.expired[name := h.shot.at]) else b;
        (Pruned(c, name, works), h.(todo := h.todo[1..]))
      else (b, h.(todo := h.todo[1..], survivors := h.survivors + [name]))
  }

  function EvictStep(b: Books, h: Holder, works: bool, cfg: Config): (Books, Holder)
    requires h.Evicting? && cfg.cap > 0
  {
    if |h.survivors| <= cfg.cap - 1 then (b, Writing)
    else
      var name := h.survivors[0];
      var c := if name in b.st.dir && works then b.(evicted := b.evicted[name := h.shot]) else b;
      (Pruned(c, name, works), h.(survivors := h.survivors[1..]))
  }

  /** An accepted entry starts with a clean record. */
  function Added(b: Books, name: string, a: Accepted): Books {
    b.(st := Written(b.st, name, a.entry), accepted := b.accepted[name := a],
       resolved := b.resolved - {name}, expired := b.expired - {name}, evicted := b.evicted - {name})
  }

  function NextSerial(b: Books): Books { b.(st := b.st.(seqNo := b.st.seqNo + 1)) }

  function WriteStep(b: Books, entry: SpoolEntry, ok: bool): Books {
    var next := NextSerial(b);
    if ok then Added(next, SpoolName(entry.createdAt, next.st.seqNo), Accepted(entry, next.st.seqNo)) else next
  }

  function ReadStep(b: Books, w: Flusher, cfg: Config): (Books, Flusher)
    requires w.Walking? && w.todo != []
  {
    var name, rest := w.todo[0], w.todo[1..];
    if name !in b.st.dir || b.st.dir[name].Folder? then (b, Walking(rest, w.at))
    else if b.st.dir[name].Garbage? then (b, Removing(name, rest, w.at))
    else if TooOld(b.st.dir[name], w.at - cfg.maxAge) then
      (b.(expired := b.expired[name := w.at]), Removing(name, rest, w.at))
    else (b, Holding(name, b.st.dir[name].e, rest, w.at))
  }

  function DeliverStep(b: Books, w: Flusher, done: bool): (Books, Flusher)
    requires w.Holding?
  {
    if done then (b.(resolved := b.resolved[w.name := w.entry]), Removing(w.name, w.rest, w.at))
    else (b, Finished)
  }

  predicate TooOld(f: File, cutoff: int) { f.Entry? && f.e.createdAt < cutoff }

  /** It is the file that counts here, not the one that was read. */
  function RemoveStep(b: Books, w: Flusher, works: bool, cfg: Config): (Books, Flusher)
    requires w.Removing?
  {
    (b.(st := FlushUnlinked(b.st, w.name, works),
        tally := if !works || w.name !in b.st.dir || Spent(b, w.name) then b.tally
                 else if TooOld(b.st.dir[w.name], w.at - cfg.maxAge) then b.tally.(aged := b.tally.aged + 1)
                 else b.tally.(stray := b.tally.stray + 1)),
     Walking(w.rest, w.at))
  }

  function With(s: State, f: nat, to: (Books, Flusher)): State
    requires IsFlusher(s, f)
  {
    s.(b := to.0, flushers := s.flushers[f := to.1])
  }

  ghost function Apply(s: State, e: Event, cfg: Config): State
    requires cfg.cap > 0 && Enabled(s, e, cfg)
  {
    match e
    case BeginEnqueue(names, at) => s.(holder := Expiring(names, [], Shot(EntryNames(s.b.st.dir), at)), clock := at)
    case ExpireNext(works) => var (b, h) := ExpireStep(s.b, s.holder, works, cfg); s.(b := b, holder := h)
    case EvictNext(works) => var (b, h) := EvictStep(s.b, s.holder, works, cfg); s.(b := b, holder := h)
    case Write(entry, ok) => s.(b := WriteStep(s.b, entry, ok), holder := Free)
    case BeginFlush(names, at) => s.(flushers := s.flushers + [Walking(names, at)], clock := at)
    case Read(f) => With(s, f, ReadStep(s.b, s.flushers[f], cfg))
    case Deliver(f, done) => With(s, f, DeliverStep(s.b, s.flushers[f], done))
    case Remove(f, works) => With(s, f, RemoveStep(s.b, s.flushers[f], works, cfg))
    case Cancel(f) => With(s, f, (s.b, Finished))
  }

  ghost predicate Legal(s: State, run: seq<Event>, cfg: Config)
    requires cfg.cap > 0
    decreases |run|
  {
    run == [] || (Enabled(s, run[0], cfg) && Legal(Apply(s, run[0], cfg), run[1..], cfg))
  }

  ghost function After(s: State, run: seq<Event>, cfg: Config): State
    requires cfg.cap > 0 && Legal(s, run, cfg)
    decreases |run|
  {
    if run == [] then s else After(Apply(s, run[0], cfg), run[1..], cfg)
  }

  lemma Extend(s: State, run: seq<Event>, e: Event, cfg: Config)
    requires cfg.cap > 0 && Legal(s, run, cfg) && Enabled(After(s, run, cfg), e, cfg)
    ensures Legal(s, run + [e], cfg) && After(s, run + [e], cfg) == Apply(After(s, run, cfg), e, cfg)
    decreases |run|
  {
    if run == [] {
      assert (run + [e])[1..] == [];
    } else {
      Extend(Apply(s, run[0], cfg), run[1..], e, cfg);
      assert (run + [e])[1..] == run[1..] + [e];
    }
  }

  /** Runs `more` after `run`. */
  lemma {:induction false} Chain(s: State, run: seq<Event>, more: seq<Event>, cfg: Config)
    requires cfg.cap > 0 && Legal(s, run, cfg) && Legal(After(s, run, cfg), more, cfg)
    ensures Legal(s, run + more, cfg) && After(s, run + more, cfg) == After(After(s, run, cfg), more, cfg)
    decreases |run|
  {
    if run == [] {
      assert run + more == more;
    } else {
      Chain(Apply(s, run[0], cfg), run[1..], more, cfg);
      assert (run + more)[1..] == run[1..] + more;
    }
  }
}
