/** What one flush does to the spool, whatever enqueues and other flushes do in between. */
module SpoolFlushes {
  import opened Numbers
  import opened SpoolNames
  import opened SpoolFiles
  import opened SpoolState

  // ---------------------------------------------------------------- what a run has a flush do

  predicate Removes(e: Event, f: nat) { e.Remove? && e.f == f }

  predicate Delivers(e: Event, f: nat) { e.Deliver? && e.f == f }

  /** The names it removes, in order. */
  ghost function Removals(s: State, run: seq<Event>, f: nat, cfg: Config): seq<string>
    requires cfg.cap > 0 && Legal(s, run, cfg) && IsFlusher(s, f)
    decreases |run|
  {
    if run == [] then []
    else (if Removes(run[0], f) then [s.flushers[f].name] else []) + Removals(Apply(s, run[0], cfg), run[1..], f, cfg)
  }

  /** The names it delivers, in order. */
  ghost function Deliveries(s: State, run: seq<Event>, f: nat, cfg: Config): seq<string>
    requires cfg.cap > 0 && Legal(s, run, cfg) && IsFlusher(s, f)
    decreases |run|
  {
    if run == [] then []
    else (if Delivers(run[0], f) then [s.flushers[f].name] else []) + Deliveries(Apply(s, run[0], cfg), run[1..], f, cfg)
  }

  /** The deliveries among them that the engine did not resolve. */
  ghost function Refusals(s: State, run: seq<Event>, f: nat, cfg: Config): seq<string>
    requires cfg.cap > 0 && Legal(s, run, cfg) && IsFlusher(s, f)
    decreases |run|
  {
    if run == [] then []
    else (if run[0] == Deliver(f, false) then [s.flushers[f].name] else []) + Refusals(Apply(s, run[0], cfg), run[1..], f, cfg)
  }

  /** The file is corrupt or past its age when the flush comes to read it. */
  predicate Hopeless(dir: Dir, name: string, cutoff: int) {
    name in dir && (dir[name].Garbage? || TooOld(dir[name], cutoff))
  }

  /** Whether a step settles a name for the flush: it finds the file hopeless, or the engine resolves the entry. */
  predicate SettlesNow(s: State, e: Event, f: nat, cfg: Config)
    requires IsFlusher(s, f)
  {
    var w := s.flushers[f];
    || (e == Read(f) && w.Walking? && w.todo != [] && Hopeless(s.b.st.dir, w.todo[0], w.at - cfg.maxAge))
    || (e == Deliver(f, true) && w.Holding?)
  }

  /** The names it settles, in order. */
  ghost function Settlements(s: State, run: seq<Event>, f: nat, cfg: Config): seq<string>
    requires cfg.cap > 0 && Legal(s, run, cfg) && IsFlusher(s, f)
    decreases |run|
  {
    if run == [] then []
    else
      (if SettlesNow(s, run[0], f, cfg) then [Current(s.flushers[f])] else []) + Settlements(Apply(s, run[0], cfg), run[1..], f, cfg)
  }

  /** The name the flush is at. */
  function Current(w: Flusher): string {
    match w
    case Walking(todo, _) => if todo == [] then [] else todo[0]
    case Holding(n, _, _, _) => n
    case Removing(n, _, _) => n
    case Finished => []
  }

  /** The names it may still remove, and those it may still deliver. */
  function Ahead(w: Flusher): seq<string> {
    match w
    case Walking(todo, _) => todo
    case Holding(n, _, rest, _) => [n] + rest
    case Removing(n, rest, _) => [n] + rest
    case Finished => []
  }

  function ToDeliver(w: Flusher): seq<string> {
    match w
    case Walking(todo, _) => todo
    case Holding(n, _, rest, _) => [n] + rest
    case Removing(_, rest, _) => rest
    case Finished => []
  }

  function Pending(w: Flusher): seq<string> { if w.Removing? then [w.name] else [] }

  // ---------------------------------------------------------------- one step

  predicate TailOf(a: seq<string>, b: seq<string>) { a == b || (b != [] && a == b[1..]) || a == [] }

  lemma StepAhead(s: State, e: Event, f: nat, cfg: Config)
    requires cfg.cap > 0 && Enabled(s, e, cfg) && IsFlusher(s, f)
    ensures IsFlusher(Apply(s, e, cfg), f)
    ensures var w, w' := s.flushers[f], Apply(s, e, cfg).flushers[f];
            TailOf(Ahead(w'), Ahead(w)) && (Removes(e, f) ==> Ahead(w) == [w.name] + Ahead(w') && ToDeliver(w') == Ahead(w'))
  {
  }

  lemma StepToDeliver(s: State, e: Event, f: nat, cfg: Config)
    requires cfg.cap > 0 && Enabled(s, e, cfg) && IsFlusher(s, f)
    ensures IsFlusher(Apply(s, e, cfg), f)
    ensures var w, w' := s.flushers[f], Apply(s, e, cfg).flushers[f];
            && TailOf(ToDeliver(w'), ToDeliver(w))
            && (Delivers(e, f) ==> ToDeliver(w) == [w.name] + w.rest && ToDeliver(w') == (if e.done then w.rest else []))
            && (Delivers(e, f) && !e.done ==> w'.Finished?)
  {
  }

  lemma StepPending(s: State, e: Event, f: nat, cfg: Config)
    requires cfg.cap > 0 && Enabled(s, e, cfg) && IsFlusher(s, f)
    ensures IsFlusher(Apply(s, e, cfg), f)
    ensures var w, w' := s.flushers[f], Apply(s, e, cfg).flushers[f];
            if SettlesNow(s, e, f, cfg) then Pending(w) == [] && Pending(w') == [Current(w)] && !Removes(e, f)
            else if Removes(e, f) then Pending(w) == [w.name] && Pending(w') == []
            else Pending(w') == Pending(w)
  {
  }

  lemma {:induction false} FinishedForGood(s: State, run: seq<Event>, f: nat, cfg: Config)
    requires cfg.cap > 0 && Legal(s, run, cfg) && IsFlusher(s, f) && s.flushers[f].Finished?
    ensures Removals(s, run, f, cfg) == [] && Deliveries(s, run, f, cfg) == [] && Refusals(s, run, f, cfg) == []
    decreases |run|
  {
    if run != [] {
      StepAhead(s, run[0], f, cfg);
      FinishedForGood(Apply(s, run[0], cfg), run[1..], f, cfg);
    }
  }

  lemma SortedTail(a: seq<string>, b: seq<string>)
    requires Sorted(b) && TailOf(a, b)
    ensures Sorted(a) && Elems(a) <= Elems(b)
  {
    if b != [] { assert b == [b[0]] + b[1..]; }
  }

  lemma ElemsOfTail(a: seq<string>, b: seq<string>)
    requires TailOf(a, b)
    ensures Elems(a) <= Elems(b)
  {
  }

  lemma HeadIsFirst(n: string, rest: seq<string>, found: set<string>)
    requires Sorted([n] + rest) && found <= Elems(rest)
    ensures forall m :: m in found ==> Before(n, m)
  {
    var all := [n] + rest;
    forall m | m in found ensures Before(n, m) {
      assert m in Elems(rest);
      var i :| 0 <= i < |rest| && rest[i] == m;
      assert Before(all[0], all[i + 1]);
    }
  }

  lemma SortedCons(n: string, rest: seq<string>, found: seq<string>)
    requires Sorted([n] + rest) && Sorted(found) && Elems(found) <= Elems(rest)
    ensures Sorted([n] + found) && Elems([n] + found) <= Elems([n] + rest)
  {
    HeadIsFirst(n, rest, Elems(found));
    forall i | 0 <= i < |found| ensures Before(n, found[i]) {
      assert found[i] in Elems(found);
    }
    assert Elems([n] + found) == {n} + Elems(found) && Elems([n] + rest) == {n} + Elems(rest);
  }

  // ---------------------------------------------------------------- whole runs

  lemma {:induction false} RemovesInOrder(s: State, run: seq<Event>, f: nat, cfg: Config)
    requires cfg.cap > 0 && Legal(s, run, cfg) && IsFlusher(s, f) && Sorted(Ahead(s.flushers[f]))
    ensures Sorted(Removals(s, run, f, cfg)) && Elems(Removals(s, run, f, cfg)) <= Elems(Ahead(s.flushers[f]))
    decreases |run|
  {
    if run != [] {
      var s' := Apply(s, run[0], cfg);
      StepAhead(s, run[0], f, cfg);
      SortedTail(Ahead(s'.flushers[f]), Ahead(s.flushers[f]));
      RemovesInOrder(s', run[1..], f, cfg);
      if Removes(run[0], f) {
        SortedCons(s.flushers[f].name, Ahead(s'.flushers[f]), Removals(s', run[1..], f, cfg));
      }
    }
  }

  lemma {:induction false} DeliversInOrder(s: State, run: seq<Event>, f: nat, cfg: Config)
    requires cfg.cap > 0 && Legal(s, run, cfg) && IsFlusher(s, f) && Sorted(ToDeliver(s.flushers[f]))
    ensures Sorted(Deliveries(s, run, f, cfg)) && Elems(Deliveries(s, run, f, cfg)) <= Elems(ToDeliver(s.flushers[f]))
    decreases |run|
  {
    if run != [] {
      var s' := Apply(s, run[0], cfg);
      StepToDeliver(s, run[0], f, cfg);
      SortedTail(ToDeliver(s'.flushers[f]), ToDeliver(s.flushers[f]));
      DeliversInOrder(s', run[1..], f, cfg);
      if Delivers(run[0], f) {
        SortedCons(s.flushers[f].name, s.flushers[f].rest, Deliveries(s', run[1..], f, cfg));
      }
    }
  }

  lemma PrefixStep(pending: seq<string>, removed: seq<string>, settled: seq<string>, n: string)
    requires removed <= pending + settled
    ensures pending == [] ==> [n] + removed <= [n] + settled
    ensures pending == [n] ==> removed <= [] + ([n] + settled)
  {
    assert [] + ([n] + settled) == [n] + settled;
    assert [] + settled == settled;
  }

  /** Each removal follows a settlement of its own, name by name. */
  lemma {:induction false} RemovesWhatItSettled(s: State, run: seq<Event>, f: nat, cfg: Config)
    requires cfg.cap > 0 && Legal(s, run, cfg) && IsFlusher(s, f)
    ensures Removals(s, run, f, cfg) <= Pending(s.flushers[f]) + Settlements(s, run, f, cfg)
    decreases |run|
  {
    if run != [] {
      var s', w := Apply(s, run[0], cfg), s.flushers[f];
      StepPending(s, run[0], f, cfg);
      RemovesWhatItSettled(s', run[1..], f, cfg);
      PrefixStep(Pending(s'.flushers[f]), Removals(s', run[1..], f, cfg), Settlements(s', run[1..], f, cfg), Current(w));
    }
  }

  /** A refusal is the last delivery, and none comes without one. */
  lemma {:induction false} RefusalIsLast(s: State, run: seq<Event>, f: nat, cfg: Config)
    requires cfg.cap > 0 && Legal(s, run, cfg) && IsFlusher(s, f)
    ensures var refused, delivered := Refusals(s, run, f, cfg), Deliveries(s, run, f, cfg);
            && |refused| <= 1 && Elems(refused) <= Elems(ToDeliver(s.flushers[f]))
            && (refused != [] ==> delivered != [] && delivered[|delivered| - 1] == refused[0])
    decreases |run|
  {
    if run != [] {
      var s' := Apply(s, run[0], cfg);
      StepToDeliver(s, run[0], f, cfg);
      ElemsOfTail(ToDeliver(s'.flushers[f]), ToDeliver(s.flushers[f]));
      RefusalIsLast(s', run[1..], f, cfg);
      if run[0] == Deliver(f, false) { FinishedForGood(s', run[1..], f, cfg); }
    }
  }

  /** Every removal is of an earlier name than a refusal. */
  lemma {:induction false} RemovesBeforeRefusal(s: State, run: seq<Event>, f: nat, cfg: Config)
    requires cfg.cap > 0 && Legal(s, run, cfg) && IsFlusher(s, f) && Sorted(Ahead(s.flushers[f]))
    ensures forall r, m :: r in Refusals(s, run, f, cfg) && m in Removals(s, run, f, cfg) ==> Before(m, r)
    decreases |run|
  {
    if run != [] {
      var s' := Apply(s, run[0], cfg);
      StepAhead(s, run[0], f, cfg);
      SortedTail(Ahead(s'.flushers[f]), Ahead(s.flushers[f]));
      RemovesBeforeRefusal(s', run[1..], f, cfg);
      if run[0] == Deliver(f, false) {
        StepToDeliver(s, run[0], f, cfg);
        FinishedForGood(s', run[1..], f, cfg);
      } else if Removes(run[0], f) {
        RefusalIsLast(s', run[1..], f, cfg);
        HeadIsFirst(s.flushers[f].name, Ahead(s'.flushers[f]), Elems(Refusals(s', run[1..], f, cfg)));
        assert forall r :: r in Refusals(s', run[1..], f, cfg) ==> r in Elems(Refusals(s', run[1..], f, cfg));
      }
    }
  }

  predicate Visiting(e: Event, f: nat) { e.Read? && e.f == f }

  /** The names it comes to read, in order. */
  ghost function Visits(s: State, run: seq<Event>, f: nat, cfg: Config): seq<string>
    requires cfg.cap > 0 && Legal(s, run, cfg) && IsFlusher(s, f)
    decreases |run|
  {
    if run == [] then []
    else (if Visiting(run[0], f) then [s.flushers[f].todo[0]] else []) + Visits(Apply(s, run[0], cfg), run[1..], f, cfg)
  }

  /** The names it has not come to yet. */
  function ToVisit(w: Flusher): seq<string> {
    match w
    case Walking(todo, _) => todo
    case Holding(_, _, rest, _) => rest
    case Removing(_, rest, _) => rest
    case Finished => []
  }

  /** A cancellation or a refusal. */
  predicate Halts(e: Event, f: nat) { e == Cancel(f) || e == Deliver(f, false) }

  predicate Halted(run: seq<Event>, f: nat) { run != [] && (Halts(run[0], f) || Halted(run[1..], f)) }

  lemma StepVisits(s: State, e: Event, f: nat, cfg: Config)
    requires cfg.cap > 0 && Enabled(s, e, cfg) && IsFlusher(s, f)
    ensures IsFlusher(Apply(s, e, cfg), f)
    ensures var w, w' := s.flushers[f], Apply(s, e, cfg).flushers[f];
            && (w'.Finished? <==> w.Finished? || Halts(e, f))
            && (!w'.Finished? ==> ToVisit(w) == (if Visiting(e, f) then [w.todo[0]] else []) + ToVisit(w'))
            && (w'.Finished? ==> !Visiting(e, f))
  {
  }

  lemma VisitStep(now: seq<string>, later: seq<string>, left: seq<string>, before: seq<string>, rest: seq<string>)
    ensures before == now + rest && later + left == rest ==> (now + later) + left == before
    ensures before == now + rest && later <= rest ==> now + later <= before
    ensures now == [] && later <= [] ==> now + later <= before
  {
  }

  /** It comes to every name of its listing in order, skipping none, until it is cancelled or refused. */
  lemma {:induction false} VisitsInOrder(s: State, run: seq<Event>, f: nat, cfg: Config)
    requires cfg.cap > 0 && Legal(s, run, cfg) && IsFlusher(s, f)
    ensures IsFlusher(After(s, run, cfg), f)
    ensures var w, w' := s.flushers[f], After(s, run, cfg).flushers[f];
            && (w'.Finished? <==> w.Finished? || Halted(run, f))
            && (if w'.Finished? then Visits(s, run, f, cfg) <= ToVisit(w) else Visits(s, run, f, cfg) + ToVisit(w') == ToVisit(w))
    decreases |run|
  {
    if run != [] {
      var s', w := Apply(s, run[0], cfg), s.flushers[f];
      StepVisits(s, run[0], f, cfg);
      VisitsInOrder(s', run[1..], f, cfg);
      var now := if Visiting(run[0], f) then [w.todo[0]] else [];
      VisitStep(now, Visits(s', run[1..], f, cfg), ToVisit(After(s', run[1..], cfg).flushers[f]), ToVisit(w), ToVisit(s'.flushers[f]));
    }
  }

  /** Whatever enqueues and other flushes do meanwhile: a flush delivers and removes in strictly increasing
      name order, and only entries that were there when it began, so nothing that came under another name
      since; it removes only what it has settled; and a refusal is its last delivery, with that entry and
      all later ones left alone. */
  lemma FlushIsOrderly(s: State, names: seq<string>, at: int, run: seq<Event>, cfg: Config)
    requires cfg.cap > 0 && Enabled(s, BeginFlush(names, at), cfg) && Legal(Apply(s, BeginFlush(names, at), cfg), run, cfg)
    ensures var s1, f := Apply(s, BeginFlush(names, at), cfg), |s.flushers|;
            var removed, delivered, refused := Removals(s1, run, f, cfg), Deliveries(s1, run, f, cfg), Refusals(s1, run, f, cfg);
            && Sorted(removed) && Elems(removed) <= EntryNames(s.b.st.dir)
            && Sorted(delivered) && Elems(delivered) <= EntryNames(s.b.st.dir)
            && removed <= Settlements(s1, run, f, cfg)
            && |refused| <= 1 && (refused != [] ==> delivered != [] && delivered[|delivered| - 1] == refused[0])
            && (forall r, m :: r in refused && m in removed ==> Before(m, r))
  {
    var s1, f := Apply(s, BeginFlush(names, at), cfg), |s.flushers|;
    assert s1.flushers[f] == Walking(names, at);
    RemovesInOrder(s1, run, f, cfg);
    DeliversInOrder(s1, run, f, cfg);
    RemovesWhatItSettled(s1, run, f, cfg);
    RefusalIsLast(s1, run, f, cfg);
    RemovesBeforeRefusal(s1, run, f, cfg);
  }

  // ---------------------------------------------------------------- nobody else removes

  /** The name whose file a step may remove: the next of a prune, or that of a flush's removal. */
  function Target(s: State, e: Event): Option<string> {
    match e
    case ExpireNext(_) => if s.holder.Expiring? && s.holder.todo != [] then Some(s.holder.todo[0]) else None
    case EvictNext(_) => if s.holder.Evicting? && s.holder.survivors != [] then Some(s.holder.survivors[0]) else None
    case Remove(f, _) => if IsFlusher(s, f) && s.flushers[f].Removing? then Some(s.flushers[f].name) else None
    case _ => None
  }

  lemma OnlyTargetGoes(s: State, e: Event, cfg: Config)
    requires cfg.cap > 0 && Enabled(s, e, cfg) && !e.Write?
    ensures var b, c := s.b, Apply(s, e, cfg).b;
            c.accepted == b.accepted && (c.st.dir == b.st.dir || (Target(s, e).Some? && c.st.dir == b.st.dir - {Target(s, e).value}))
  {
  }

  /** A write removes its temporary file only, which is no entry's. */
  lemma WriteRemovesNone(b: Books, entry: SpoolEntry, ok: bool, n: string)
    requires HasSuffix(n) && n in b.st.dir
    ensures n in WriteStep(b, entry, ok).st.dir
  {
    var name := SpoolName(entry.createdAt, b.st.seqNo + 1);
    assert n != name + ".tmp" by { assert (name + ".tmp")[|name| + 3] == 'p'; }
  }

  /** The state after the first k steps of a run. */
  ghost function At(s: State, run: seq<Event>, k: nat, cfg: Config): State
    requires cfg.cap > 0 && Legal(s, run, cfg) && k <= |run|
    decreases k
  {
    if k == 0 then s else At(Apply(s, run[0], cfg), run[1..], k - 1, cfg)
  }

  /** An entry that is gone after a run was the target of one of its steps. */
  lemma {:induction false} GoneByTarget(s: State, run: seq<Event>, n: string, cfg: Config)
    requires cfg.cap > 0 && Legal(s, run, cfg) && HasSuffix(n) && n in s.b.st.dir && n !in After(s, run, cfg).b.st.dir
    ensures exists k :: 0 <= k < |run| && Target(At(s, run, k, cfg), run[k]) == Some(n)
    decreases |run|
  {
    var s', rest := Apply(s, run[0], cfg), run[1..];
    if n in s'.b.st.dir {
      GoneByTarget(s', rest, n, cfg);
      var k :| 0 <= k < |rest| && Target(At(s', rest, k, cfg), rest[k]) == Some(n);
      assert run[k + 1] == rest[k] && At(s, run, k + 1, cfg) == At(s', rest, k, cfg);
    } else {
      if run[0].Write? {
        WriteRemovesNone(s.b, run[0].entry, run[0].ok, n);
      } else {
        OnlyTargetGoes(s, run[0], cfg);
      }
      assert At(s, run, 0, cfg) == s;
    }
  }

  // ---------------------------------------------------------------- neither waits for the other

  predicate OfFlush(e: Event) { e.Read? || e.Deliver? || e.Remove? || e.Cancel? }

  predicate OfEnqueue(e: Event) { e.ExpireNext? || e.EvictNext? || e.Write? }

  /** A flush goes on whatever an enqueue that holds the lock is at, and to the same effect. */
  lemma FlushNeedsNoLock(s: State, h: Holder, e: Event, cfg: Config)
    requires cfg.cap > 0 && OfFlush(e)
    ensures Enabled(s.(holder := h), e, cfg) <==> Enabled(s, e, cfg)
    ensures Enabled(s, e, cfg) ==> Apply(s.(holder := h), e, cfg) == Apply(s, e, cfg).(holder := h)
  {
  }

  /** And the enqueue whatever flushes are at. */
  lemma EnqueueAwaitsNoFlush(s: State, ws: seq<Flusher>, e: Event, cfg: Config)
    requires cfg.cap > 0 && OfEnqueue(e)
    ensures Enabled(s.(flushers := ws), e, cfg) <==> Enabled(s, e, cfg)
    ensures Enabled(s, e, cfg) ==> Apply(s.(flushers := ws), e, cfg) == Apply(s, e, cfg).(flushers := ws)
  {
  }

  predicate Over(w: Flusher) { w.Finished? || (w.Walking? && w.todo == []) }

  /** Steps it has still to make. */
  function StepsLeft(w: Flusher): nat {
    match w
    case Walking(todo, _) => 3 * |todo|
    case Holding(_, _, rest, _) => 3 * |rest| + 2
    case Removing(_, rest, _) => 3 * |rest| + 1
    case Finished => 0
  }

  lemma NextOfFlush(s: State, f: nat, done: bool, works: bool, cfg: Config) returns (e: Event)
    requires cfg.cap > 0 && IsFlusher(s, f) && !Over(s.flushers[f])
    ensures OfFlush(e) && Enabled(s, e, cfg) && IsFlusher(Apply(s, e, cfg), f)
    ensures Apply(s, e, cfg).holder == s.holder && StepsLeft(Apply(s, e, cfg).flushers[f]) < StepsLeft(s.flushers[f])
  {
    var w := s.flushers[f];
    e := if w.Walking? then Read(f) else if w.Holding? then Deliver(f, done) else Remove(f, works);
  }

  /** Whatever else stands still, a flush gets to its end by its own steps, at most three for each name. */
  lemma {:induction false} FlushCanFinish(s: State, f: nat, cfg: Config) returns (run: seq<Event>)
    requires cfg.cap > 0 && IsFlusher(s, f)
    ensures Legal(s, run, cfg) && (forall e :: e in run ==> OfFlush(e)) && |run| <= StepsLeft(s.flushers[f])
    ensures IsFlusher(After(s, run, cfg), f) && Over(After(s, run, cfg).flushers[f]) && After(s, run, cfg).holder == s.holder
    decreases StepsLeft(s.flushers[f])
  {
    run := [];
    if !Over(s.flushers[f]) {
      var e := NextOfFlush(s, f, true, true, cfg);
      var rest := FlushCanFinish(Apply(s, e, cfg), f, cfg);
      run := [e] + rest;
      assert run[1..] == rest;
    }
  }
}
