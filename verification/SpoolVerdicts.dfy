/** What a flush makes of each name, and the changes to the directory while it goes on, as values. */
module SpoolVerdicts {
  import opened SpoolNames
  import opened SpoolFiles
  import opened SpoolState

  /** What a flush made of one name: nothing to read, not an entry, past its age, resolved by the
      engine, or refused by it for now. */
  datatype Outcome = Unreadable | Corrupt | Aged(e: SpoolEntry) | Resolved(e: SpoolEntry) | Paused(e: SpoolEntry) {
    predicate Settles() { Corrupt? || Aged? || Resolved? }
  }

  predicate Sound(o: Outcome, i: nat, cutoff: int, accepts: set<nat>) {
    match o
    case Aged(e) => e.createdAt < cutoff
    case Resolved(e) => e.createdAt >= cutoff && i in accepts
    case Paused(e) => e.createdAt >= cutoff && i !in accepts
    case _ => true
  }

  /** Every outcome is sound, only the last may be a refusal, and none came after a cancellation. */
  predicate Judged(outcomes: seq<Outcome>, cutoff: int, cancelAt: nat, accepts: set<nat>) {
    && |outcomes| <= cancelAt
    && (forall i :: 0 <= i < |outcomes| ==> Sound(outcomes[i], i, cutoff, accepts))
    && (forall i :: 0 <= i < |outcomes| - 1 ==> !outcomes[i].Paused?)
  }

  lemma JudgedMore(outcomes: seq<Outcome>, cutoff: int, cancelAt: nat, accepts: set<nat>, o: Outcome)
    requires Judged(outcomes, cutoff, cancelAt, accepts) && Unrefused(outcomes)
    requires |outcomes| < cancelAt && Sound(o, |outcomes|, cutoff, accepts)
    ensures Judged(outcomes + [o], cutoff, cancelAt, accepts)
  {
  }

  /** The outcome fits the file of that name. */
  predicate Matches(o: Outcome, dir: Dir, name: string) {
    name in dir &&
    match o
    case Unreadable => dir[name].Folder?
    case Corrupt => dir[name].Garbage?
    case _ => dir[name] == Entry(o.e)
  }

  /** Such an outcome is what the steps of a flush make of that file. */
  lemma OutcomeIsSteps(o: Outcome, b: Books, name: string, rest: seq<string>, i: nat, at: int, accepts: set<nat>, cfg: Config)
    requires Matches(o, b.st.dir, name) && Sound(o, i, at - cfg.maxAge, accepts)
    ensures var (c, w) := ReadStep(b, Walking([name] + rest, at), cfg);
            match o
            case Unreadable => w == Walking(rest, at)
            case Corrupt => w == Removing(name, rest, at)
            case Aged(_) => w == Removing(name, rest, at) && c.expired == b.expired[name := at]
            case Resolved(e) =>
              w == Holding(name, e, rest, at) && DeliverStep(c, w, i in accepts).1 == Removing(name, rest, at)
            case Paused(e) => w == Holding(name, e, rest, at) && DeliverStep(c, w, i in accepts) == (c, Finished)
  {
    assert ([name] + rest)[1..] == rest;
  }

  /** The names a flush is done with for good. */
  function Settled(names: seq<string>, outcomes: seq<Outcome>): set<string>
    requires |outcomes| <= |names|
  {
    if outcomes == [] then {}
    else
      var n := |outcomes| - 1;
      Settled(names, outcomes[..n]) + (if outcomes[n].Settles() then {names[n]} else {})
  }

  lemma SettledMore(names: seq<string>, outcomes: seq<Outcome>, o: Outcome)
    requires |outcomes| < |names|
    ensures Settled(names, outcomes + [o]) == Settled(names, outcomes) + (if o.Settles() then {names[|outcomes|]} else {})
  {
    assert (outcomes + [o])[..|outcomes|] == outcomes;
  }

  lemma {:induction false} SettledNames(names: seq<string>, outcomes: seq<Outcome>)
    requires |outcomes| <= |names|
    ensures Settled(names, outcomes) <= Elems(names[..|outcomes|])
  {
    if outcomes != [] {
      var n := |outcomes| - 1;
      SettledNames(names, outcomes[..n]);
      assert names[..n + 1] == names[..n] + [names[n]];
    }
  }

  /** The last delivery, if any, was not refused. */
  predicate Unrefused(outcomes: seq<Outcome>) { outcomes == [] || !outcomes[|outcomes| - 1].Paused? }

  // ---------------------------------------------------------------- the directory while a flush goes on

  /** The flush removes a file, or others leave the directory as it then is. */
  datatype Change = Ours(name: string) | Theirs(after: Dir)

  function Replay(d: Dir, changes: seq<Change>): Dir {
    if changes == [] then d
    else
      var n := |changes| - 1;
      match changes[n]
      case Ours(name) => Replay(d, changes[..n]) - {name}
      case Theirs(after) => after
  }

  function OursIn(changes: seq<Change>): seq<string> {
    if changes == [] then []
    else
      var n := |changes| - 1;
      OursIn(changes[..n]) + (if changes[n].Ours? then [changes[n].name] else [])
  }

  function TheirsIn(changes: seq<Change>): seq<Dir> {
    if changes == [] then []
    else
      var n := |changes| - 1;
      TheirsIn(changes[..n]) + (if changes[n].Theirs? then [changes[n].after] else [])
  }

  lemma ReplayOne(d: Dir, changes: seq<Change>, c: Change)
    ensures Replay(d, changes + [c]) == if c.Ours? then Replay(d, changes) - {c.name} else c.after
    ensures OursIn(changes + [c]) == OursIn(changes) + if c.Ours? then [c.name] else []
    ensures TheirsIn(changes + [c]) == TheirsIn(changes) + if c.Theirs? then [c.after] else []
  {
    assert (changes + [c])[..|changes|] == changes;
  }

  lemma {:induction false} ReplayBoth(d: Dir, a: seq<Change>, b: seq<Change>)
    ensures Replay(d, a + b) == Replay(Replay(d, a), b)
  {
    if b == [] {
      assert a + b == a;
    } else {
      var n := |b| - 1;
      assert (a + b)[..|a| + n] == a + b[..n];
      ReplayBoth(d, a, b[..n]);
    }
  }

  lemma {:induction false} OursInBoth(a: seq<Change>, b: seq<Change>)
    ensures OursIn(a + b) == OursIn(a) + OursIn(b)
  {
    if b == [] {
      assert a + b == a;
    } else {
      var n := |b| - 1;
      assert (a + b)[..|a| + n] == a + b[..n];
      OursInBoth(a, b[..n]);
    }
  }

  lemma {:induction false} TheirsInBoth(a: seq<Change>, b: seq<Change>)
    ensures TheirsIn(a + b) == TheirsIn(a) + TheirsIn(b)
  {
    if b == [] {
      assert a + b == a;
    } else {
      var n := |b| - 1;
      assert (a + b)[..|a| + n] == a + b[..n];
      TheirsInBoth(a, b[..n]);
    }
  }

  lemma ReplayAppend(d: Dir, a: seq<Change>, b: seq<Change>)
    ensures Replay(d, a + b) == Replay(Replay(d, a), b)
    ensures OursIn(a + b) == OursIn(a) + OursIn(b) && TheirsIn(a + b) == TheirsIn(a) + TheirsIn(b)
  {
    ReplayBoth(d, a, b);
    OursInBoth(a, b);
    TheirsInBoth(a, b);
  }

  /** With nobody else about, only the flush's own removals show. */
  lemma {:induction false} OnlyOurs(d: Dir, changes: seq<Change>)
    requires TheirsIn(changes) == []
    ensures Replay(d, changes) == d - Elems(OursIn(changes))
  {
    if changes != [] {
      var n := |changes| - 1;
      OnlyOurs(d, changes[..n]);
      assert Elems(OursIn(changes)) == Elems(OursIn(changes[..n])) + {changes[n].name};
    }
  }

  /** The outcome fits the directory, a missing file being unreadable. */
  predicate Reads(o: Outcome, dir: Dir, name: string) {
    if name !in dir then o.Unreadable? else Matches(o, dir, name)
  }

  /** It fits the directory at one moment, and at a later one the name is gone, if settled and removable. */
  ghost predicate Passed(o: Outcome, before: Dir, changes: seq<Change>, name: string, stuck: set<string>, j: nat, k: nat) {
    && j <= k <= |changes| && Reads(o, Replay(before, changes[..j]), name)
    && (o.Settles() && name !in stuck ==> name !in Replay(before, changes[..k]))
  }

  ghost predicate Seen(o: Outcome, before: Dir, changes: seq<Change>, name: string, stuck: set<string>) {
    exists j: nat, k: nat :: Passed(o, before, changes, name, stuck, j, k)
  }

  lemma SeenLater(o: Outcome, before: Dir, changes: seq<Change>, more: seq<Change>, name: string, stuck: set<string>)
    requires Seen(o, before, changes, name, stuck)
    ensures Seen(o, before, changes + more, name, stuck)
  {
    var j: nat, k: nat :| Passed(o, before, changes, name, stuck, j, k);
    assert (changes + more)[..j] == changes[..j] && (changes + more)[..k] == changes[..k];
    assert Passed(o, before, changes + more, name, stuck, j, k);
  }

  lemma SeenNow(o: Outcome, before: Dir, changes: seq<Change>, did: seq<Change>, k: nat, name: string, stuck: set<string>)
    requires Handled(o, Replay(before, changes), did, k, name, stuck)
    ensures Seen(o, before, changes + did, name, stuck)
  {
    ReplayBoth(before, changes, did[..k]);
    ReplayBoth(before, changes, did);
    var all := changes + did;
    assert all[..|changes| + k] == changes + did[..k] && all[..|all|] == all;
    assert Passed(o, before, all, name, stuck, |changes| + k, |all|);
  }

  // ---------------------------------------------------------------- what a flush has done so far

  /** Its own removals are of settled names, in order; each outcome fits the directory at some moment, after
      which the name goes if settled and removable; and if nobody else changed the directory, that was at the
      beginning, and exactly the settled names that can be removed are. */
  ghost predicate FlushedSoFar(names: seq<string>, outcomes: seq<Outcome>, before: Dir, changes: seq<Change>, stuck: set<string>)
    requires |outcomes| <= |names|
  {
    && Sorted(OursIn(changes)) && Elems(OursIn(changes)) <= Settled(names, outcomes) - stuck
    && (forall i :: 0 <= i < |outcomes| ==> Seen(outcomes[i], before, changes, names[i], stuck))
    && (TheirsIn(changes) == [] ==>
          && Settled(names, outcomes) - stuck <= Elems(OursIn(changes))
          && forall i :: 0 <= i < |outcomes| ==> Matches(outcomes[i], before, names[i]))
  }

  ghost predicate FlushInv(names: seq<string>, outcomes: seq<Outcome>, cutoff: int, cancelAt: nat, accepts: set<nat>,
                           before: Dir, changes: seq<Change>, stuck: set<string>) {
    |outcomes| <= |names| && Judged(outcomes, cutoff, cancelAt, accepts) && FlushedSoFar(names, outcomes, before, changes, stuck)
  }

  lemma NothingFlushed(names: seq<string>, cutoff: int, cancelAt: nat, accepts: set<nat>, before: Dir, stuck: set<string>)
    ensures FlushInv(names, [], cutoff, cancelAt, accepts, before, [], stuck) && Replay(before, []) == before && TheirsIn([]) == []
  {
  }

  lemma StillThere(names: seq<string>, outcomes: seq<Outcome>, before: Dir, changes: seq<Change>, stuck: set<string>)
    requires |outcomes| < |names| && Distinct(names) && Elems(names) == EntryNames(before)
    requires FlushedSoFar(names, outcomes, before, changes, stuck) && TheirsIn(changes) == []
    ensures var name := names[|outcomes|];
            name in before && name in Replay(before, changes) && Replay(before, changes)[name] == before[name]
  {
    SettledNames(names, outcomes);
    NextName(names, |outcomes|);
    OnlyOurs(before, changes);
    assert names[|outcomes|] in Elems(names);
  }

  /** Read after k changes, and not touched by the flush since. */
  ghost predicate Judging(o: Outcome, was: Dir, did: seq<Change>, k: nat, name: string) {
    k <= |did| && OursIn(did) == [] && Reads(o, Replay(was, did[..k]), name)
  }

  /** What one name comes to: it was read after k changes, and only then, if settled, removed. */
  ghost predicate Handled(o: Outcome, was: Dir, did: seq<Change>, k: nat, name: string, stuck: set<string>) {
    && k <= |did| && OursIn(did[..k]) == [] && Reads(o, Replay(was, did[..k]), name)
    && (OursIn(did) == [] || (o.Settles() && name !in stuck && OursIn(did) == [name]))
    && (o.Settles() ==> name !in Replay(was, did) || name in stuck)
  }

  lemma NoneOurs(did: seq<Change>, k: nat)
    requires k <= |did| && OursIn(did) == []
    ensures OursIn(did[..k]) == []
  {
    assert did == did[..k] + did[k..];
    ReplayAppend(map[], did[..k], did[k..]);
  }

  /** Left alone, because it is not settled, or is gone already, or cannot be removed. */
  lemma LetBe(o: Outcome, was: Dir, did: seq<Change>, k: nat, name: string, stuck: set<string>)
    requires Judging(o, was, did, k, name) && (o.Settles() ==> name !in Replay(was, did) || name in stuck)
    ensures Handled(o, was, did, k, name, stuck)
  {
    NoneOurs(did, k);
  }

  lemma TakenOut(o: Outcome, was: Dir, did: seq<Change>, k: nat, name: string, stuck: set<string>)
    requires Judging(o, was, did, k, name) && o.Settles() && name !in stuck
    ensures Handled(o, was, did + [Ours(name)], k, name, stuck)
    ensures Replay(was, did + [Ours(name)]) == Replay(was, did) - {name} && TheirsIn(did + [Ours(name)]) == TheirsIn(did)
  {
    var all := did + [Ours(name)];
    ReplayOne(was, did, Ours(name));
    assert all[..k] == did[..k];
    NoneOurs(did, k);
  }

  /** What others leave between two steps: `mid` and then `left` are what they still have to do. */
  lemma Interrupted(was: Dir, did: seq<Change>, more: seq<Change>, others: seq<Dir>, mid: seq<Dir>, left: seq<Dir>)
    requires others == TheirsIn(did) + mid && mid == TheirsIn(more) + left
    ensures others == TheirsIn(did + more) + left && Replay(was, did + more) == Replay(Replay(was, did), more)
    ensures OursIn(did + more) == OursIn(did) + OursIn(more)
  {
    ReplayAppend(was, did, more);
  }

  /** The file as it was after `did`, and then others. */
  lemma JudgedFile(o: Outcome, was: Dir, did: seq<Change>, more: seq<Change>, name: string, others: seq<Dir>, mid: seq<Dir>, left: seq<Dir>)
    returns (all: seq<Change>)
    requires OursIn(did) == [] && OursIn(more) == [] && Reads(o, Replay(was, did), name)
    requires others == TheirsIn(did) + mid && mid == TheirsIn(more) + left
    ensures Judging(o, was, all, |did|, name) && Replay(was, all) == Replay(Replay(was, did), more) && others == TheirsIn(all) + left
  {
    all := did + more;
    Interrupted(was, did, more, others, mid, left);
    assert all[..|did|] == did;
  }

  /** Others, and then the removal. */
  lemma SettledFile(o: Outcome, was: Dir, did: seq<Change>, k: nat, name: string, stuck: set<string>, more: seq<Change>,
                    others: seq<Dir>, mid: seq<Dir>, left: seq<Dir>, fate: bool, now: Dir) returns (all: seq<Change>)
    requires Judging(o, was, did, k, name) && o.Settles() && OursIn(more) == []
    requires others == TheirsIn(did) + mid && mid == TheirsIn(more) + left
    requires var d := Replay(Replay(was, did), more); (fate <==> name in d && name !in stuck) && now == if fate then d - {name} else d
    ensures Handled(o, was, all, k, name, stuck) && now == Replay(was, all) && others == TheirsIn(all) + left
  {
    all := did + more;
    Interrupted(was, did, more, others, mid, left);
    assert all[..k] == did[..k];
    if fate {
      TakenOut(o, was, all, k, name, stuck);
      all := all + [Ours(name)];
    } else {
      LetBe(o, was, all, k, name, stuck);
    }
  }

  lemma ReadAlone(was: Dir, did: seq<Change>, k: nat)
    requires k <= |did| && TheirsIn(did) == [] && OursIn(did[..k]) == []
    ensures Replay(was, did[..k]) == was
  {
    assert did == did[..k] + did[k..];
    ReplayAppend(was, did[..k], did[k..]);
    OnlyOurs(was, did[..k]);
  }

  lemma HandledAlone(o: Outcome, was: Dir, did: seq<Change>, k: nat, name: string, stuck: set<string>)
    requires Handled(o, was, did, k, name, stuck) && TheirsIn(did) == [] && name in was
    ensures Matches(o, was, name) && (o.Settles() && name !in stuck ==> OursIn(did) == [name])
  {
    ReadAlone(was, did, k);
    if OursIn(did) == [] { OnlyOurs(was, did); }
  }

  lemma SeenMore(names: seq<string>, outcomes: seq<Outcome>, before: Dir, changes: seq<Change>, stuck: set<string>,
                 o: Outcome, did: seq<Change>, k: nat)
    requires |outcomes| < |names| && forall i :: 0 <= i < |outcomes| ==> Seen(outcomes[i], before, changes, names[i], stuck)
    requires Handled(o, Replay(before, changes), did, k, names[|outcomes|], stuck)
    ensures forall i :: 0 <= i <= |outcomes| ==> Seen((outcomes + [o])[i], before, changes + did, names[i], stuck)
  {
    SeenNow(o, before, changes, did, k, names[|outcomes|], stuck);
    forall i | 0 <= i < |outcomes| ensures Seen(outcomes[i], before, changes + did, names[i], stuck) {
      SeenLater(outcomes[i], before, changes, did, names[i], stuck);
    }
  }

  /** With nobody else about, the file was as at the beginning, and is gone if settled. */
  lemma AloneMore(names: seq<string>, outcomes: seq<Outcome>, before: Dir, changes: seq<Change>, stuck: set<string>,
                  o: Outcome, did: seq<Change>, k: nat)
    requires |outcomes| < |names| && Sorted(names) && Elems(names) == EntryNames(before)
    requires FlushedSoFar(names, outcomes, before, changes, stuck) && TheirsIn(changes) == [] && TheirsIn(did) == []
    requires Handled(o, Replay(before, changes), did, k, names[|outcomes|], stuck)
    ensures Matches(o, before, names[|outcomes|]) && (o.Settles() && names[|outcomes|] !in stuck ==> OursIn(did) == [names[|outcomes|]])
  {
    SortedIsDistinct(names);
    StillThere(names, outcomes, before, changes, stuck);
    HandledAlone(o, Replay(before, changes), did, k, names[|outcomes|], stuck);
  }

  lemma OursMore(names: seq<string>, outcomes: seq<Outcome>, changes: seq<Change>, stuck: set<string>, o: Outcome, did: seq<Change>)
    requires |outcomes| < |names| && Sorted(names) && Sorted(OursIn(changes))
    requires Elems(OursIn(changes)) <= Settled(names, outcomes) - stuck
    requires OursIn(did) == [] || (o.Settles() && names[|outcomes|] !in stuck && OursIn(did) == [names[|outcomes|]])
    ensures var ours := OursIn(changes) + OursIn(did); Sorted(ours) && Elems(ours) <= Settled(names, outcomes + [o]) - stuck
  {
    SettledMore(names, outcomes, o);
    OursStaySorted(names, outcomes, changes, stuck, OursIn(did));
    SetsAppend(OursIn(changes), OursIn(did));
  }

  lemma AloneAll(names: seq<string>, outcomes: seq<Outcome>, before: Dir, changes: seq<Change>, stuck: set<string>,
                 o: Outcome, did: seq<Change>, k: nat)
    requires |outcomes| < |names| && Sorted(names) && Elems(names) == EntryNames(before)
    requires FlushedSoFar(names, outcomes, before, changes, stuck) && TheirsIn(changes) == [] && TheirsIn(did) == []
    requires Handled(o, Replay(before, changes), did, k, names[|outcomes|], stuck)
    ensures Settled(names, outcomes + [o]) - stuck <= Elems(OursIn(changes) + OursIn(did))
    ensures forall i :: 0 <= i <= |outcomes| ==> Matches((outcomes + [o])[i], before, names[i])
  {
    AloneMore(names, outcomes, before, changes, stuck, o, did, k);
    SettledMore(names, outcomes, o);
    SetsAppend(OursIn(changes), OursIn(did));
  }

  lemma FlushedMore(names: seq<string>, outcomes: seq<Outcome>, before: Dir, changes: seq<Change>, stuck: set<string>,
                    o: Outcome, did: seq<Change>, k: nat)
    requires |outcomes| < |names| && Sorted(names) && Elems(names) == EntryNames(before)
    requires FlushedSoFar(names, outcomes, before, changes, stuck)
    requires Handled(o, Replay(before, changes), did, k, names[|outcomes|], stuck)
    ensures FlushedSoFar(names, outcomes + [o], before, changes + did, stuck)
  {
    ReplayAppend(before, changes, did);
    OursMore(names, outcomes, changes, stuck, o, did);
    SeenMore(names, outcomes, before, changes, stuck, o, did, k);
    if TheirsIn(changes) + TheirsIn(did) == [] {
      AloneAll(names, outcomes, before, changes, stuck, o, did, k);
    }
  }

  lemma FlushStep(names: seq<string>, outcomes: seq<Outcome>, cutoff: int, cancelAt: nat, accepts: set<nat>, before: Dir,
                  changes: seq<Change>, stuck: set<string>, o: Outcome, did: seq<Change>, k: nat,
                  others: seq<Dir>, mid: seq<Dir>, left: seq<Dir>)
    requires |outcomes| < |names| && |outcomes| < cancelAt && Unrefused(outcomes) && Listing(names, EntryNames(before))
    requires FlushInv(names, outcomes, cutoff, cancelAt, accepts, before, changes, stuck)
    requires Sound(o, |outcomes|, cutoff, accepts) && Handled(o, Replay(before, changes), did, k, names[|outcomes|], stuck)
    requires others == TheirsIn(changes) + mid && mid == TheirsIn(did) + left
    ensures FlushInv(names, outcomes + [o], cutoff, cancelAt, accepts, before, changes + did, stuck)
    ensures Replay(before, changes + did) == Replay(Replay(before, changes), did) && others == TheirsIn(changes + did) + left
  {
    FlushedMore(names, outcomes, before, changes, stuck, o, did, k);
    JudgedMore(outcomes, cutoff, cancelAt, accepts, o);
    Interrupted(before, changes, did, others, mid, left);
  }

  lemma SetsAppend(a: seq<string>, b: seq<string>)
    ensures Elems(a + b) == Elems(a) + Elems(b)
  {
  }

  lemma OursStaySorted(names: seq<string>, outcomes: seq<Outcome>, changes: seq<Change>, stuck: set<string>, more: seq<string>)
    requires |outcomes| < |names| && Sorted(names) && Sorted(OursIn(changes))
    requires Elems(OursIn(changes)) <= Settled(names, outcomes) - stuck && (more == [] || more == [names[|outcomes|]])
    ensures Sorted(OursIn(changes) + more)
  {
    SettledNames(names, outcomes);
    forall m | m in OursIn(changes) ensures Before(m, names[|outcomes|]) {
      assert m in Elems(OursIn(changes));
      var j :| 0 <= j < |outcomes| && names[..|outcomes|][j] == m;
      assert Before(names[j], names[|outcomes|]);
    }
  }

  /** A flush that nobody interferes with leaves exactly the directory without the settled names. */
  lemma FlushAlone(names: seq<string>, outcomes: seq<Outcome>, cutoff: int, cancelAt: nat, accepts: set<nat>,
                   before: Dir, changes: seq<Change>, stuck: set<string>)
    requires FlushInv(names, outcomes, cutoff, cancelAt, accepts, before, changes, stuck) && TheirsIn(changes) == []
    ensures Replay(before, changes) == before - (Settled(names, outcomes) - stuck)
    ensures forall i :: 0 <= i < |outcomes| ==> Matches(outcomes[i], before, names[i])
  {
    OnlyOurs(before, changes);
  }
}
