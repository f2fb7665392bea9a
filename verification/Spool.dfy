/** The on-disk postback spool: enqueue under the lock, flush mostly without it. */
module Spool {
  import opened Numbers
  import opened SpoolNames
  import opened SpoolFiles
  import opened SpoolState
  import opened SpoolSteps
  import opened SpoolVerdicts
  import opened SpoolCalls

  const DEFAULT_MAX_ENTRIES: nat := 100
  const DEFAULT_MAX_AGE: int := 24 * HOUR

  /** What goes wrong on the disk during an enqueue. */
  datatype Disk = Fine | NoDir | NoWrite(partial: bool) | NoRename

  method Oldest(names: set<string>) returns (first: string)
    requires names != {}
    ensures first in names && forall n :: n in names - {first} ==> Before(first, n)
  {
    ghost var m := FirstName(names);
    first :| first in names && forall n :: n in names ==> n == first || Before(first, n);
  }

  class PostbackSpool {
    const maxEntries: nat
    const maxAge: int
    /** Files the operating system refuses to remove. */
    const stuck: set<string>
    var dir: Dir
    var seqNo: nat
    var droppedTotal: nat

    /** What the steps of SpoolState work on. */
    ghost function Contents(): Store
      reads this
    {
      Store(dir, seqNo, droppedTotal)
    }

    constructor (maxEntries: int, maxAge: int, dir: Dir, stuck: set<string>)
      ensures this.maxEntries > 0 && this.maxAge > 0 && this.dir == dir && this.stuck == stuck
      ensures this.maxEntries == (if maxEntries > 0 then maxEntries else 100)
      ensures this.maxAge == (if maxAge > 0 then maxAge else 24 * HOUR)
      ensures seqNo == 0 && droppedTotal == 0
    {
      this.maxEntries := if maxEntries <= 0 then DEFAULT_MAX_ENTRIES else maxEntries;
      this.maxAge := if maxAge <= 0 then DEFAULT_MAX_AGE else maxAge;
      this.dir, this.stuck := dir, stuck;
      seqNo, droppedTotal := 0, 0;
    }

    method Remove(name: string) returns (r: Removal)
      modifies `dir
      ensures r == FateOf(old(dir), name, stuck)
      ensures dir == if r.Removed? then old(dir) - {name} else old(dir)
      ensures Contents() == FlushUnlinked(old(Contents()), name, name !in stuck)
    {
      if name !in dir {
        return NotExist;
      }
      if name in stuck {
        return Refused;
      }
      dir := dir - {name};
      return Removed;
    }

    /** A flush running beside an enqueue only ever removes entries; `takes` are those it may remove while
        the enqueue goes on. */
    method OthersRemove(takes: set<string>) returns (ghost took: set<string>)
      modifies `dir
      ensures took <= EntryNames(old(dir)) && took <= takes && dir == old(dir) - took
    {
      var gone: set<string> := *;
      gone := gone * takes * EntryNames(dir);
      took := gone;
      dir := dir - gone;
    }

    /** The entry files, sorted by name. */
    method ListLocked() returns (names: array<string>)
      ensures fresh(names) && Listing(names[..], EntryNames(dir))
    {
      var rest := EntryNames(dir);
      var found: seq<string> := [];
      while rest != {}
        invariant ListedSoFar(found, rest, EntryNames(dir))
        decreases |rest|
      {
        var first := Oldest(rest);
        ListMore(found, rest, EntryNames(dir), first);
        found := found + [first];
        rest := rest - {first};
      }
      names := new string[|found|](i requires 0 <= i < |found| => found[i]);
      assert names[..] == found;
    }

    /** Counts the removal unless the system refused it, so a file that was already gone too; `took` is
        what a flush removed just before. */
    method RemoveLocked(name: string, takes: set<string>) returns (ghost took: set<string>, ghost fate: Removal)
      modifies `dir, `droppedTotal
      ensures took <= EntryNames(old(dir)) && took <= takes
      ensures fate == FateOf(old(dir) - took, name, stuck)
      ensures dir == if fate.Removed? then old(dir) - took - {name} else old(dir) - took
      ensures droppedTotal == old(droppedTotal) + if fate.Refused? then 0 else 1
      ensures Contents() == PruneUnlinked(old(Contents()).(dir := old(dir) - took), name, name !in stuck)
    {
      took := OthersRemove(takes);
      var r := Remove(name);
      fate := r;
      if r.Refused? {
        return;
      }
      droppedTotal := droppedTotal + 1;
    }

    /** Adds one removal to the toll of a prune that began with the directory `before`. */
    method Levy(name: string, ghost before: Dir, ghost paid: Toll, takes: set<string>) returns (ghost toll: Toll)
      requires Levied(before, dir, paid, stuck) && name in EntryNames(before) && name !in paid.doomed
      requires paid.others <= takes
      modifies `dir, `droppedTotal
      ensures Levied(before, dir, toll, stuck) && toll.doomed == paid.doomed + [name]
      ensures toll.others <= takes
      ensures droppedTotal == old(droppedTotal) + Counted(toll.fates) - Counted(paid.fates)
    {
      ghost var was := dir;
      ghost var took, fate := RemoveLocked(name, takes);
      toll := LevyMore(before, was, paid, stuck, name, took, fate, dir);
    }

    /** The in-place filter: `survivors` is the front part of the very array being read, and slot w
        is written only after slot r >= w was read. */
    method DropExpired(files: array<string>, ghost listing: seq<string>, cutoff: int, ghost stale: iset<string>, takes: set<string>)
      returns (w: nat, ghost toll: Toll)
      requires listing == files[..] && Distinct(listing) && Elems(listing) <= EntryNames(dir) && stale == OlderThan(cutoff)
      modifies files, `dir, `droppedTotal
      ensures w <= files.Length && files[..w] == Pick(listing, stale, false)
      ensures Levied(old(dir), dir, toll, stuck) && toll.doomed == Pick(listing, stale, true)
      ensures toll.others <= takes
      ensures droppedTotal == old(droppedTotal) + Counted(toll.fates)
    {
      ghost var before := dir;
      toll := Toll([], [], {});
      NothingLevied(dir, stuck);
      SiftedNone(listing, stale);
      var r := 0;
      w := 0;
      while r < files.Length
        invariant r <= files.Length && Sifted(listing, files[..], r, w, stale, toll.doomed)
        invariant Levied(before, dir, toll, stuck) && toll.others <= takes
        invariant droppedTotal == old(droppedTotal) + Counted(toll.fates)
      {
        var name := files[r];
        ghost var now := files[..];
        SiftNext(listing, now, r, w, stale, toll.doomed);
        if Expired(name, cutoff) {
          toll := Levy(name, before, toll, takes);
        } else {
          files[w] := name;
          assert files[..] == now[w := name];
          w := w + 1;
        }
        r := r + 1;
      }
      SiftedAll(listing, files[..], w, stale, toll.doomed);
      assert files[..w] == files[..][..w];
    }

    /** Goes on from the toll of the first pass. */
    method EvictOldest(survivors: seq<string>, target: nat, ghost before: Dir, ghost paid: Toll, takes: set<string>) returns (ghost toll: Toll)
      requires Levied(before, dir, paid, stuck) && Elems(survivors) <= EntryNames(before) && Distinct(paid.doomed + survivors)
      requires paid.others <= takes
      modifies `dir, `droppedTotal
      ensures Levied(before, dir, toll, stuck) && toll.doomed == paid.doomed + survivors[..Max(0, |survivors| - target)]
      ensures toll.others <= takes
      ensures droppedTotal == old(droppedTotal) + Counted(toll.fates) - Counted(paid.fates)
    {
      toll := paid;
      var lo := 0;
      while |survivors| - lo > target
        invariant 0 <= lo <= Max(0, |survivors| - target)
        invariant Levied(before, dir, toll, stuck) && toll.doomed == paid.doomed + survivors[..lo]
        invariant toll.others <= takes
        invariant droppedTotal == old(droppedTotal) + Counted(toll.fates) - Counted(paid.fates)
      {
        NotYetDoomed(paid.doomed, survivors, lo);
        toll := Levy(survivors[lo], before, toll, takes);
        lo := lo + 1;
      }
    }

    /** The two passes over a listing of the spool. */
    method DropAndEvict(files: array<string>, cutoff: int, target: nat, takes: set<string>) returns (ghost kept: set<string>, ghost toll: Toll)
      requires Listing(files[..], EntryNames(dir))
      modifies files, `dir, `droppedTotal
      ensures PruneDone(old(dir), dir, kept, toll, cutoff, target, stuck) && toll.others <= takes
      ensures droppedTotal == old(droppedTotal) + Counted(toll.fates)
    {
      ghost var before, stale, listing := dir, OlderThan(cutoff), files[..];
      ghost var survivors, expired, evicted;
      survivors, expired, evicted, kept := PruneParts(listing, stale, target);
      SetsOf(expired, evicted);
      var w;
      ghost var paid;
      w, paid := DropExpired(files, listing, cutoff, stale, takes);
      var front := files[..w];
      assert front == survivors && paid.doomed == expired;
      toll := EvictOldest(front, target, before, paid, takes);
      assert toll.doomed == expired + evicted;
    }

    /** Removes the expired entries and then the oldest until `keep` remain. */
    method PruneLocked(keep: int, now: int, takes: set<string>) returns (ghost kept: set<string>, ghost toll: Toll)
      modifies `dir, `droppedTotal
      ensures PruneDone(old(dir), dir, kept, toll, now - maxAge, Max(0, keep), stuck) && toll.others <= takes
      ensures droppedTotal == old(droppedTotal) + Counted(toll.fates)
    {
      var files := ListLocked();
      if files.Length == 0 {
        NothingToPrune(files[..], dir, now - maxAge, Max(0, keep), stuck);
        kept, toll := {}, Toll([], [], {});
      } else {
        kept, toll := DropAndEvict(files, now - maxAge, if keep < 0 then 0 else keep, takes);
      }
    }

    /** A write that fails may leave a part of the file. */
    method WriteTemp(tmp: string, entry: SpoolEntry, disk: Disk) returns (ok: bool)
      modifies `dir
      ensures ok <==> !disk.NoDir? && !disk.NoWrite? && !Clashes(old(dir), tmp)
      ensures dir == if ok then old(dir)[tmp := Entry(entry)]
                     else if disk.NoWrite? && disk.partial && !Clashes(old(dir), tmp) then old(dir)[tmp := Garbage] else old(dir)
    {
      ok := !disk.NoDir? && !disk.NoWrite? && !Clashes(dir, tmp);
      if ok {
        dir := dir[tmp := Entry(entry)];
      } else if disk.NoWrite? && disk.partial && !Clashes(dir, tmp) {
        dir := dir[tmp := Garbage];
      }
    }

    /** A rename that fails removes the temporary file. */
    method Rename(tmp: string, name: string, disk: Disk) returns (ok: bool)
      requires tmp in dir
      modifies `dir
      ensures ok <==> !disk.NoRename? && !Clashes(old(dir), name)
      ensures dir == if ok then (old(dir) - {tmp})[name := old(dir)[tmp]]
                     else if tmp in stuck then old(dir) else old(dir) - {tmp}
    {
      ok := !disk.NoRename? && !Clashes(dir, name);
      if ok {
        dir := (dir - {tmp})[name := dir[tmp]];
      } else if tmp !in stuck {
        dir := dir - {tmp};
      }
    }

    /** Writes a temporary file, which is no entry, and renames it to a fresh name. */
    method Commit(entry: SpoolEntry, disk: Disk, takes: set<string>) returns (ok: bool, name: string, ghost took: set<string>)
      modifies `dir, `seqNo
      ensures seqNo == old(seqNo) + 1 && name == SpoolName(entry.createdAt, seqNo) && droppedTotal == old(droppedTotal)
      ensures ok <==> disk.Fine? && NameIsFree(old(dir), name)
      ensures took <= EntryNames(old(dir)) && took <= takes
      ensures EntryNames(dir) == (EntryNames(old(dir)) - took) + (if ok then {name} else {})
      ensures Unchanged(EntryNames(dir) - (if ok then {name} else {}), old(dir), dir)
      ensures ok ==> Contents() == Written(Store(old(dir) - took, seqNo, droppedTotal), name, entry)
      ensures !ok ==> dir - {name + ".tmp"} == old(dir) - took - {name + ".tmp"}
      ensures name + ".tmp" in dir ==> name + ".tmp" in old(dir) || (disk.NoWrite? && disk.partial) || name + ".tmp" in stuck
    {
      ghost var was := dir;
      seqNo := seqNo + 1;
      name := SpoolName(entry.createdAt, seqNo);
      took := {};
      var tmp := name + ".tmp";
      SuffixFacts(name, entry.createdAt, seqNo);
      ok := WriteTemp(tmp, entry, disk);
      if ok {
        PutOther(was, tmp, Entry(entry));
        took := OthersRemove(takes);
        TmpLeavesNothing(was, tmp, Entry(entry), took);
        StaysFree(was, took, name);
        ok := Rename(tmp, name, disk);
      }
      if ok {
        CommitDone(was, name, tmp, entry, took, dir);
      } else {
        CommitFailed(was, tmp, took, dir);
      }
    }

    /** Makes room for one more entry, and writes it. */
    method PruneAndCommit(entry: SpoolEntry, now: int, disk: Disk, takes: set<string>)
      returns (ok: bool, name: string, ghost kept: set<string>, ghost toll: Toll, ghost took: set<string>)
      requires maxEntries > 0
      modifies `dir, `seqNo, `droppedTotal
      ensures Fair(EntryNames(old(dir)), toll, stuck) && toll.others + took <= takes && Distinct(toll.doomed)
      ensures IsNewest(kept, Unexpired(EntryNames(old(dir)), OlderThan(now - maxAge)), maxEntries - 1)
      ensures Elems(toll.doomed) == EntryNames(old(dir)) - kept
      ensures name == SpoolName(entry.createdAt, old(seqNo) + 1) && seqNo == old(seqNo) + 1
      ensures ok <==> disk.Fine? && NameIsFree(old(dir), name)
      ensures ok ==> name in EntryNames(dir) && dir[name] == Entry(entry)
      ensures ok && stuck == {} ==> |EntryNames(dir)| <= maxEntries
      ensures ok ==> EntryNames(dir) <= kept + (EntryNames(old(dir)) * stuck) + {name}
      ensures EntryNames(dir) == (EntryNames(old(dir)) - Lost(toll) - took) + (if ok then {name} else {})
      ensures EntryNames(old(dir)) - Elems(toll.doomed) - takes <= EntryNames(dir)
      ensures takes == {} ==> EntryNames(dir) == kept + (EntryNames(old(dir)) * stuck) + (if ok then {name} else {})
      ensures Unchanged(EntryNames(dir) - (if ok then {name} else {}), old(dir), dir)
      ensures droppedTotal == old(droppedTotal) + Counted(toll.fates)
      ensures takes == {} ==> EnqueueDone(old(Contents()), Contents(), entry, now, ok, kept, toll, stuck, maxEntries, maxAge)
    {
      ghost var before := dir;
      kept, toll := PruneLocked(maxEntries - 1, now, takes);
      assert seqNo == old(seqNo);
      ghost var mid := dir;
      ok, name, took := Commit(entry, disk, takes);
      EnqueueEntries(before, toll, kept, stuck, mid, took, dir, if ok then {name} else {});
      StaysFree(before, Lost(toll), name);
      if ok && stuck == {} {
        EnqueueBound(kept, Unexpired(EntryNames(before), OlderThan(now - maxAge)), maxEntries - 1, EntryNames(dir), name);
      }
    }

    /** Keeps the spool within its bounds and adds the entry. */
    method Enqueue(entry: SpoolEntry, now: int, disk: Disk, takes: set<string>)
      returns (ok: bool, name: string, ghost kept: set<string>, ghost toll: Toll, ghost took: set<string>)
      requires maxEntries > 0
      modifies `dir, `seqNo, `droppedTotal
      ensures Fair(EntryNames(old(dir)), toll, stuck) && toll.others + took <= takes
      ensures ok <==> disk.Fine? && NameIsFree(old(dir), SpoolName(entry.createdAt, old(seqNo) + 1))
      ensures ok ==> name == SpoolName(entry.createdAt, seqNo) && name in EntryNames(dir) && dir[name] == Entry(entry)
      ensures ok && stuck == {} ==> |EntryNames(dir)| <= maxEntries
      ensures ok ==> EntryNames(dir) <= kept + (EntryNames(old(dir)) * stuck) + {name}
      ensures EntryNames(dir) == (EntryNames(old(dir)) - Lost(toll) - took) + (if ok then {name} else {})
      ensures EntryNames(old(dir)) - Elems(toll.doomed) - takes <= EntryNames(dir)
      ensures Unchanged(EntryNames(dir) - (if ok then {name} else {}), old(dir), dir)
      ensures seqNo == old(seqNo) + (if disk.NoDir? then 0 else 1) && (disk.NoDir? ==> dir == old(dir))
      ensures !disk.NoDir? ==>
                && IsNewest(kept, Unexpired(EntryNames(old(dir)), OlderThan(now - maxAge)), maxEntries - 1)
                && Distinct(toll.doomed) && Elems(toll.doomed) == EntryNames(old(dir)) - kept
                && (takes == {} ==> EntryNames(dir) == kept + (EntryNames(old(dir)) * stuck) + (if ok then {name} else {}))
      ensures droppedTotal == old(droppedTotal) + Counted(toll.fates)
      ensures takes == {} && !disk.NoDir? ==> EnqueueIsARun(old(Contents()), Contents(), entry, now, ok, maxEntries, maxAge)
    {
      if disk.NoDir? {
        NothingLevied(dir, stuck);
        return false, [], {}, Toll([], [], {}), {};
      }
      ok, name, kept, toll, took := PruneAndCommit(entry, now, disk, takes);
      if takes == {} {
        EnqueueRefines(old(Contents()), Contents(), entry, now, ok, kept, toll, stuck, maxEntries, maxAge);
      }
    }

    /** Between two steps of a flush others may act; `others` are the directories they leave, in order. */
    method OthersChange(others: seq<Dir>) returns (left: seq<Dir>, ghost did: seq<Change>)
      modifies `dir
      ensures others == TheirsIn(did) + left && OursIn(did) == [] && dir == Replay(old(dir), did)
    {
      var act: bool := *;
      if act && others != [] {
        dir, left, did := others[0], others[1..], [Theirs(others[0])];
      } else {
        left, did := others, [];
      }
    }

    /** Reads one entry and judges it. */
    method FlushRead(name: string, i: nat, cutoff: int, accepts: set<nat>, others: seq<Dir>)
      returns (o: Outcome, left: seq<Dir>, ghost did: seq<Change>, ghost seen: nat)
      modifies `dir
      ensures Sound(o, i, cutoff, accepts) && Judging(o, old(dir), did, seen, name)
      ensures dir == Replay(old(dir), did) && others == TheirsIn(did) + left
    {
      ghost var more;
      var mid;
      mid, did := OthersChange(others);
      seen := |did|;
      if name !in dir || dir[name].Folder? {
        o := Unreadable;
      } else if dir[name].Garbage? {
        o := Corrupt;
      } else {
        var e := dir[name].e;
        o := if e.createdAt < cutoff then Aged(e) else if i in accepts then Resolved(e) else Paused(e);
      }
      left, more := OthersChange(mid);
      did := JudgedFile(o, old(dir), did, more, name, others, mid, left);
    }

    /** Removes an entry that is settled. */
    method FlushRemove(name: string, ghost o: Outcome, ghost was: Dir, ghost before: seq<Change>, ghost seen: nat,
                       ghost others: seq<Dir>, mid: seq<Dir>)
      returns (left: seq<Dir>, ghost did: seq<Change>)
      requires Judging(o, was, before, seen, name) && o.Settles() && dir == Replay(was, before) && others == TheirsIn(before) + mid
      modifies `dir
      ensures Handled(o, was, did, seen, name, stuck) && dir == Replay(was, did) && others == TheirsIn(did) + left
    {
      ghost var more;
      left, more := OthersChange(mid);
      var r := Remove(name);
      did := SettledFile(o, was, before, seen, name, stuck, more, others, mid, left, r.Removed?, dir);
    }

    /** Reads one entry, judges it and removes it once it is settled; it was read after `seen` changes. */
    method FlushOne(name: string, i: nat, cutoff: int, accepts: set<nat>, others: seq<Dir>)
      returns (o: Outcome, left: seq<Dir>, ghost did: seq<Change>, ghost seen: nat)
      modifies `dir
      ensures Sound(o, i, cutoff, accepts) && Handled(o, old(dir), did, seen, name, stuck)
      ensures dir == Replay(old(dir), did) && others == TheirsIn(did) + left
    {
      ghost var was := dir;
      o, left, did, seen := FlushRead(name, i, cutoff, accepts, others);
      if o.Settles() {
        left, did := FlushRemove(name, o, was, did, seen, others, left);
      } else {
        LetBe(o, was, did, seen, name, stuck);
      }
    }

    /** The part of a flush that holds the lock. */
    method Snapshot() returns (names: seq<string>)
      ensures Listing(names, EntryNames(dir))
    {
      var listing := ListLocked();
      names := listing[..];
    }

    /** The next name of a flush; `stop` says that its delivery was refused. */
    method FlushNext(names: seq<string>, outcomes: seq<Outcome>, ghost before: Dir, ghost changes: seq<Change>,
                     cutoff: int, cancelAt: nat, accepts: set<nat>, ghost others: seq<Dir>, mid: seq<Dir>)
      returns (outcomes': seq<Outcome>, left: seq<Dir>, ghost changes': seq<Change>, stop: bool)
      requires |outcomes| < |names| && |outcomes| < cancelAt && Unrefused(outcomes)
      requires Listing(names, EntryNames(before)) && dir == Replay(before, changes) && others == TheirsIn(changes) + mid
      requires FlushInv(names, outcomes, cutoff, cancelAt, accepts, before, changes, stuck)
      modifies `dir
      ensures |outcomes'| == |outcomes| + 1 && stop == !Unrefused(outcomes')
      ensures FlushInv(names, outcomes', cutoff, cancelAt, accepts, before, changes', stuck)
      ensures dir == Replay(before, changes') && others == TheirsIn(changes') + left
    {
      var o;
      ghost var did, seen;
      o, left, did, seen := FlushOne(names[|outcomes|], |outcomes|, cutoff, accepts, mid);
      FlushStep(names, outcomes, cutoff, cancelAt, accepts, before, changes, stuck, o, did, seen, others, mid, left);
      outcomes', changes', stop := outcomes + [o], changes + did, o.Paused?;
    }

    /** Goes through the names one after the other. */
    method FlushAll(names: seq<string>, cutoff: int, cancelAt: nat, accepts: set<nat>, others: seq<Dir>)
      returns (outcomes: seq<Outcome>, ghost changes: seq<Change>)
      requires Listing(names, EntryNames(dir))
      modifies `dir
      ensures FlushInv(names, outcomes, cutoff, cancelAt, accepts, old(dir), changes, stuck)
      ensures |outcomes| < |names| ==> |outcomes| >= cancelAt || !Unrefused(outcomes)
      ensures dir == Replay(old(dir), changes) && TheirsIn(changes) <= others
    {
      outcomes, changes := [], [];
      ghost var before := dir;
      var stop, left := false, others;
      NothingFlushed(names, cutoff, cancelAt, accepts, before, stuck);
      while |outcomes| < |names|
        invariant FlushInv(names, outcomes, cutoff, cancelAt, accepts, before, changes, stuck) && Unrefused(outcomes)
        invariant dir == Replay(before, changes) && others == TheirsIn(changes) + left
        decreases |names| - |outcomes|
      {
        if |outcomes| >= cancelAt {
          return;
        }
        outcomes, left, changes, stop := FlushNext(names, outcomes, before, changes, cutoff, cancelAt, accepts, others, left);
        if stop {
          return;
        }
      }
    }

    /** Delivers the entries oldest first; only the listing is made under the lock.  The directory is what
        its own removals and what others left make of it, one after the other. */
    method Flush(now: int, cancelAt: nat, accepts: set<nat>, others: seq<Dir>)
      returns (names: seq<string>, outcomes: seq<Outcome>, ghost changes: seq<Change>)
      modifies `dir
      ensures Listing(names, EntryNames(old(dir)))
      ensures FlushInv(names, outcomes, now - maxAge, cancelAt, accepts, old(dir), changes, stuck)
      ensures |outcomes| < |names| ==> |outcomes| >= cancelAt || !Unrefused(outcomes)
      ensures dir == Replay(old(dir), changes) && TheirsIn(changes) <= others
      ensures others == [] ==> FlushIsARun(old(Contents()), Contents(), now, names, outcomes, maxAge)
    {
      names := Snapshot();
      outcomes, changes := FlushAll(names, now - maxAge, cancelAt, accepts, others);
      if others == [] {
        FlushAlone(names, outcomes, now - maxAge, cancelAt, accepts, old(dir), changes, stuck);
        FlushRefines(old(Contents()), Contents(), now, names, outcomes, cancelAt, accepts, stuck, maxAge);
      }
    }
  }
}
