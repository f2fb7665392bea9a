/** The books of SpoolState are what happened: each record and each count goes back to steps of the run. */
module SpoolRecords {
  import opened Numbers
  import opened SpoolNames
  import opened SpoolFiles
  import opened SpoolState
  import opened SpoolFlushes

  // ---------------------------------------------------------------- records

  /** A step in which the engine resolves this very entry, held under this name. */
  predicate Resolves(s: State, e: Event, n: string, entry: SpoolEntry) {
    e.Deliver? && e.done && IsFlusher(s, e.f) && s.flushers[e.f].Holding? && s.flushers[e.f].name == n && s.flushers[e.f].entry == entry
  }

  lemma StepResolved(s: State, e: Event, n: string, cfg: Config)
    requires cfg.cap > 0 && Enabled(s, e, cfg) && n in Apply(s, e, cfg).b.resolved
    ensures var entry := Apply(s, e, cfg).b.resolved[n]; Resolves(s, e, n, entry) || (n in s.b.resolved && s.b.resolved[n] == entry)
  {
  }

  /** What the books call resolved, the engine resolved in a step of the run. */
  lemma {:induction false} ResolvedWasDelivered(s: State, run: seq<Event>, n: string, cfg: Config)
    requires cfg.cap > 0 && Legal(s, run, cfg) && n in After(s, run, cfg).b.resolved
    ensures var entry := After(s, run, cfg).b.resolved[n];
            || (n in s.b.resolved && s.b.resolved[n] == entry)
            || exists k :: 0 <= k < |run| && Resolves(At(s, run, k, cfg), run[k], n, entry)
    decreases |run|
  {
    if run != [] {
      var s', rest := Apply(s, run[0], cfg), run[1..];
      var entry := After(s, run, cfg).b.resolved[n];
      ResolvedWasDelivered(s', rest, n, cfg);
      if n in s'.b.resolved && s'.b.resolved[n] == entry {
        StepResolved(s, run[0], n, cfg);
        assert At(s, run, 0, cfg) == s;
      } else {
        var k :| 0 <= k < |rest| && Resolves(At(s', rest, k, cfg), rest[k], n, entry);
        assert run[k + 1] == rest[k] && At(s, run, k + 1, cfg) == At(s', rest, k, cfg);
      }
    }
  }

  lemma StepAccepted(s: State, e: Event, n: string, cfg: Config)
    requires cfg.cap > 0 && Enabled(s, e, cfg) && n in Apply(s, e, cfg).b.accepted
    ensures var a := Apply(s, e, cfg).b.accepted[n];
            || (n in s.b.accepted && s.b.accepted[n] == a)
            || (e == Write(a.entry, true) && n == SpoolName(a.entry.createdAt, s.b.st.seqNo + 1) && a.serial == s.b.st.seqNo + 1)
  {
  }

  /** What the books call accepted, an enqueue wrote, under that name. */
  lemma {:induction false} AcceptedWasWritten(s: State, run: seq<Event>, n: string, cfg: Config)
    requires cfg.cap > 0 && Legal(s, run, cfg) && n in After(s, run, cfg).b.accepted
    ensures var a := After(s, run, cfg).b.accepted[n];
            || (n in s.b.accepted && s.b.accepted[n] == a)
            || (n == SpoolName(a.entry.createdAt, a.serial) && Write(a.entry, true) in run)
    decreases |run|
  {
    if run != [] {
      var s' := Apply(s, run[0], cfg);
      AcceptedWasWritten(s', run[1..], n, cfg);
      if n in s'.b.accepted && s'.b.accepted[n] == After(s, run, cfg).b.accepted[n] { StepAccepted(s, run[0], n, cfg); }
    }
  }

  // ---------------------------------------------------------------- counts

  /** The name a prune sets out to remove in a step, if it does. */
  function SetsOutFor(s: State, e: Event, cfg: Config): Option<string> {
    match e
    case ExpireNext(_) =>
      if s.holder.Expiring? && s.holder.todo != [] && Expired(s.holder.todo[0], s.holder.shot.at - cfg.maxAge) then Some(s.holder.todo[0])
      else None
    case EvictNext(_) =>
      if s.holder.Evicting? && s.holder.survivors != [] && |s.holder.survivors| >= cfg.cap then Some(s.holder.survivors[0]) else None
    case _ => None
  }

  /** The file that a flush removes in a step, if it does. */
  function Flushes(s: State, e: Event): Option<string> {
    if e.Remove? && e.works && IsFlusher(s, e.f) && s.flushers[e.f].Removing? && s.flushers[e.f].name in s.b.st.dir
    then Some(s.flushers[e.f].name) else None
  }

  predicate Works(e: Event) { (e.ExpireNext? && e.works) || (e.EvictNext? && e.works) }

  /** The steps of a run in which something of a kind happened. */
  datatype Kind = Counted | Beaten | Late | Pruned | Aged | Stray

  predicate Happens(kind: Kind, s: State, e: Event, cfg: Config) {
    match SetsOutFor(s, e, cfg)
    case Some(n) =>
      (match kind
       case Counted => n in s.b.st.dir ==> Works(e)
       case Beaten => n !in s.b.st.dir
       case Late => n in s.b.st.dir && Works(e) && Spent(s.b, n)
       case Pruned => n in s.b.st.dir && Works(e) && !Spent(s.b, n)
       case _ => false)
    case None =>
      match Flushes(s, e)
      case Some(n) =>
        (match kind
         case Aged => !Spent(s.b, n) && TooOld(s.b.st.dir[n], s.flushers[e.f].at - cfg.maxAge)
         case Stray => !Spent(s.b, n) && !TooOld(s.b.st.dir[n], s.flushers[e.f].at - cfg.maxAge)
         case _ => false)
      case None => false
  }

  ghost function HowOften(kind: Kind, s: State, run: seq<Event>, cfg: Config): nat
    requires cfg.cap > 0 && Legal(s, run, cfg)
    decreases |run|
  {
    if run == [] then 0
    else (if Happens(kind, s, run[0], cfg) then 1 else 0) + HowOften(kind, Apply(s, run[0], cfg), run[1..], cfg)
  }

  function TallyOf(kind: Kind, b: Books): nat {
    match kind
    case Counted => b.st.droppedTotal
    case Beaten => b.tally.beaten
    case Late => b.tally.late
    case Pruned => b.tally.pruned
    case Aged => b.tally.aged
    case Stray => b.tally.stray
  }

  lemma StepTally(kind: Kind, s: State, e: Event, cfg: Config)
    requires cfg.cap > 0 && Enabled(s, e, cfg)
    ensures TallyOf(kind, Apply(s, e, cfg).b) == TallyOf(kind, s.b) + if Happens(kind, s, e, cfg) then 1 else 0
  {
  }

  /** The drop counter counts the steps in which a prune set out to remove an entry and was not refused, and
      each part of the tally the steps in which that happened. */
  lemma {:induction false} TallyIsWhatHappened(kind: Kind, s: State, run: seq<Event>, cfg: Config)
    requires cfg.cap > 0 && Legal(s, run, cfg)
    ensures TallyOf(kind, After(s, run, cfg).b) == TallyOf(kind, s.b) + HowOften(kind, s, run, cfg)
    decreases |run|
  {
    if run != [] {
      StepTally(kind, s, run[0], cfg);
      TallyIsWhatHappened(kind, Apply(s, run[0], cfg), run[1..], cfg);
    }
  }
}
