/** One removal, one prune and one commit, as values. */
module SpoolSteps {
  import opened Numbers
  import opened SpoolNames
  import opened SpoolFiles
  import opened SpoolState

  // ---------------------------------------------------------------- what a prune costs

  /** How the removal of a file ends. */
  datatype Removal = Removed | NotExist | Refused

  function FateOf(dir: Dir, name: string, stuck: set<string>): Removal {
    if name !in dir then NotExist else if name in stuck then Refused else Removed
  }

  /** The names a prune set out to remove, what came of each, and the entries that a flush removed
      in the meantime. */
  datatype Toll = Toll(doomed: seq<string>, fates: seq<Removal>, others: set<string>)

  function CountOf(fates: seq<Removal>, fate: Removal): nat {
    if fates == [] then 0 else CountOf(fates[..|fates| - 1], fate) + (if fates[|fates| - 1] == fate then 1 else 0)
  }

  /** What the drop counter makes of it. */
  function Counted(fates: seq<Removal>): nat { CountOf(fates, Removed) + CountOf(fates, NotExist) }

  function RemovedNames(doomed: seq<string>, fates: seq<Removal>): set<string>
    requires |fates| == |doomed|
  {
    if doomed == [] then {}
    else
      var n := |doomed| - 1;
      RemovedNames(doomed[..n], fates[..n]) + (if fates[n].Removed? then {doomed[n]} else {})
  }

  predicate Fits(fate: Removal, name: string, others: set<string>, stuck: set<string>) {
    match fate
    case Removed => name !in others && name !in stuck
    case NotExist => name in others
    case Refused => name in stuck
  }

  /** A doomed name was removed by this prune, or taken by a flush first, or refused by the system. */
  predicate Fair(entries: set<string>, toll: Toll, stuck: set<string>) {
    && |toll.fates| == |toll.doomed| && toll.others <= entries && Elems(toll.doomed) <= entries
    && forall i :: 0 <= i < |toll.fates| ==> Fits(toll.fates[i], toll.doomed[i], toll.others, stuck)
  }

  function Lost(toll: Toll): set<string>
    requires |toll.fates| == |toll.doomed|
  {
    toll.others + RemovedNames(toll.doomed, toll.fates)
  }

  predicate Levied(before: Dir, now: Dir, toll: Toll, stuck: set<string>) {
    Fair(EntryNames(before), toll, stuck) && now == before - Lost(toll)
  }

  lemma NothingLevied(dir: Dir, stuck: set<string>)
    ensures Levied(dir, dir, Toll([], [], {}), stuck) && Counted([]) == 0 && Lost(Toll([], [], {})) == {} && Elems([]) == {}
  {
  }

  lemma {:induction false} RemovedAt(doomed: seq<string>, fates: seq<Removal>, name: string)
    requires |fates| == |doomed|
    ensures name in RemovedNames(doomed, fates) <==> exists i :: 0 <= i < |doomed| && doomed[i] == name && fates[i].Removed?
  {
    if doomed != [] {
      var n := |doomed| - 1;
      RemovedAt(doomed[..n], fates[..n], name);
    }
  }

  lemma CountedMore(fates: seq<Removal>, fate: Removal)
    ensures Counted(fates + [fate]) == Counted(fates) + if fate.Refused? then 0 else 1
  {
    assert (fates + [fate])[..|fates|] == fates;
  }

  /** One more removal, after a flush took some entries. */
  lemma LevyMore(before: Dir, was: Dir, toll: Toll, stuck: set<string>, name: string, took: set<string>, fate: Removal, now: Dir)
    returns (more: Toll)
    requires Levied(before, was, toll, stuck) && name in EntryNames(before) && name !in toll.doomed
    requires took <= EntryNames(was) && fate == FateOf(was - took, name, stuck)
    requires now == if fate.Removed? then was - took - {name} else was - took
    ensures more == Toll(toll.doomed + [name], toll.fates + [fate], toll.others + took)
    ensures Levied(before, now, more, stuck) && Counted(more.fates) == Counted(toll.fates) + if fate.Refused? then 0 else 1
  {
    more := Toll(toll.doomed + [name], toll.fates + [fate], toll.others + took);
    CountedMore(toll.fates, fate);
    var n := |toll.doomed|;
    assert more.doomed[..n] == toll.doomed && more.fates[..n] == toll.fates;
    LevyFair(before, was, toll, stuck, name, took, fate);
    LostMore(toll, took, name, fate);
  }

  lemma LostMore(toll: Toll, took: set<string>, name: string, fate: Removal)
    requires |toll.fates| == |toll.doomed|
    ensures Lost(Toll(toll.doomed + [name], toll.fates + [fate], toll.others + took))
            == Lost(toll) + took + (if fate.Removed? then {name} else {})
  {
    assert (toll.doomed + [name])[..|toll.doomed|] == toll.doomed && (toll.fates + [fate])[..|toll.doomed|] == toll.fates;
  }

  lemma LevyFair(before: Dir, was: Dir, toll: Toll, stuck: set<string>, name: string, took: set<string>, fate: Removal)
    requires Levied(before, was, toll, stuck) && name in EntryNames(before) && name !in toll.doomed
    requires took <= EntryNames(was) && fate == FateOf(was - took, name, stuck)
    ensures Fair(EntryNames(before), Toll(toll.doomed + [name], toll.fates + [fate], toll.others + took), stuck)
  {
    RemovedAt(toll.doomed, toll.fates, name);
    EntriesMinus(before, Lost(toll));
    forall i | 0 <= i < |toll.doomed| && toll.fates[i].Removed? ensures toll.doomed[i] !in took {
      RemovedAt(toll.doomed, toll.fates, toll.doomed[i]);
    }
    assert Elems(toll.doomed + [name]) == Elems(toll.doomed) + {name};
  }

  lemma NotPickedBefore(names: seq<string>, i: nat, stale: iset<string>, want: bool)
    requires Distinct(names) && i < |names|
    ensures names[i] !in Pick(names[..i], stale, want)
  {
    PickElems(names[..i], stale, want, names[i]);
    NextName(names, i);
  }

  /** After r names the front of the array holds those that are not stale, and the rest is as it was. */
  ghost predicate Sifted(listing: seq<string>, now: seq<string>, r: nat, w: nat, stale: iset<string>, doomed: seq<string>) {
    && w <= r <= |listing| == |now| && now[r..] == listing[r..]
    && now[..w] == Pick(listing[..r], stale, false) && doomed == Pick(listing[..r], stale, true)
  }

  lemma SiftedNone(listing: seq<string>, stale: iset<string>)
    ensures Sifted(listing, listing, 0, 0, stale, [])
  {
  }

  lemma SiftedAll(listing: seq<string>, now: seq<string>, w: nat, stale: iset<string>, doomed: seq<string>)
    requires Sifted(listing, now, |listing|, w, stale, doomed)
    ensures w <= |now| && now[..w] == Pick(listing, stale, false) && doomed == Pick(listing, stale, true)
  {
    assert listing[..|listing|] == listing;
  }

  lemma SiftNext(listing: seq<string>, now: seq<string>, r: nat, w: nat, stale: iset<string>, doomed: seq<string>)
    requires Sifted(listing, now, r, w, stale, doomed) && r < |listing| && Distinct(listing)
    ensures now[r] == listing[r] && now[r] in Elems(listing)
    ensures now[r] in stale ==> now[r] !in doomed && Sifted(listing, now, r + 1, w, stale, doomed + [now[r]])
    ensures now[r] !in stale ==> Sifted(listing, now[w := now[r]], r + 1, w + 1, stale, doomed)
  {
    var name := now[r];
    assert name == now[r..][0] == listing[r..][0];
    assert now[r..][1..] == now[r + 1..] && listing[r..][1..] == listing[r + 1..];
    PickMore(listing, r, stale, false);
    PickMore(listing, r, stale, true);
    NotPickedBefore(listing, r, stale, true);
    if name !in stale {
      var put := now[w := name];
      assert put[..w + 1] == now[..w] + [name] && put[r + 1..] == now[r + 1..];
    }
  }

  lemma NotYetDoomed(doomed: seq<string>, survivors: seq<string>, lo: nat)
    requires Distinct(doomed + survivors) && lo < |survivors|
    ensures survivors[lo] in Elems(survivors) && survivors[lo] !in doomed + survivors[..lo]
    ensures doomed + survivors[..lo + 1] == doomed + survivors[..lo] + [survivors[lo]]
  {
    var all := doomed + survivors;
    assert all[|doomed| + lo] == survivors[lo];
    forall i | 0 <= i < |doomed| + lo ensures (doomed + survivors[..lo])[i] != survivors[lo] {
      assert (doomed + survivors[..lo])[i] == all[i];
    }
  }

  /** The growth of the drop counter is the number of entries this prune removed exactly if no doomed
      one was taken first; otherwise it is more by just those. */
  lemma CounterIsExactUnlessBeaten(entries: set<string>, toll: Toll, stuck: set<string>)
    requires Fair(entries, toll, stuck) && Distinct(toll.doomed)
    ensures Counted(toll.fates) == |RemovedNames(toll.doomed, toll.fates)| + CountOf(toll.fates, NotExist)
    ensures Counted(toll.fates) == |RemovedNames(toll.doomed, toll.fates)| <==> NotExist !in toll.fates
    ensures toll.others == {} ==> NotExist !in toll.fates && RemovedNames(toll.doomed, toll.fates) == Elems(toll.doomed) - stuck
  {
    RemovedCount(toll.doomed, toll.fates);
    NoneCounted(toll.fates, NotExist);
    if toll.others == {} { AllFreeRemoved(entries, toll, stuck); }
  }

  lemma {:induction false} RemovedCount(doomed: seq<string>, fates: seq<Removal>)
    requires |fates| == |doomed| && Distinct(doomed)
    ensures |RemovedNames(doomed, fates)| == CountOf(fates, Removed)
  {
    if doomed != [] {
      var n := |doomed| - 1;
      RemovedCount(doomed[..n], fates[..n]);
      RemovedAt(doomed[..n], fates[..n], doomed[n]);
    }
  }

  lemma {:induction false} NoneCounted(fates: seq<Removal>, fate: Removal)
    ensures CountOf(fates, fate) == 0 <==> fate !in fates
  {
    if fates != [] {
      NoneCounted(fates[..|fates| - 1], fate);
      assert fates == fates[..|fates| - 1] + [fates[|fates| - 1]];
    }
  }

  lemma AllFreeRemoved(entries: set<string>, toll: Toll, stuck: set<string>)
    requires Fair(entries, toll, stuck) && toll.others == {}
    ensures RemovedNames(toll.doomed, toll.fates) == Elems(toll.doomed) - stuck
  {
    forall n ensures n in RemovedNames(toll.doomed, toll.fates) <==> n in toll.doomed && n !in stuck {
      RemovedAt(toll.doomed, toll.fates, n);
    }
  }

  /** Every doomed name that the system lets go of is gone. */
  lemma AllGone(entries: set<string>, toll: Toll, stuck: set<string>)
    requires Fair(entries, toll, stuck)
    ensures Elems(toll.doomed) - stuck <= Lost(toll)
  {
    forall n | n in Elems(toll.doomed) - stuck ensures n in Lost(toll) {
      RemovedAt(toll.doomed, toll.fates, n);
    }
  }

  lemma LostIsThere(entries: set<string>, toll: Toll, stuck: set<string>)
    requires Fair(entries, toll, stuck)
    ensures Lost(toll) <= entries
  {
    forall n | n in RemovedNames(toll.doomed, toll.fates) ensures n in entries {
      RemovedAt(toll.doomed, toll.fates, n);
    }
  }

  /** Nothing is lost but what was doomed or taken. */
  lemma LostWasDoomed(entries: set<string>, toll: Toll, stuck: set<string>)
    requires Fair(entries, toll, stuck)
    ensures Lost(toll) <= toll.others + Elems(toll.doomed)
  {
    forall n | n in RemovedNames(toll.doomed, toll.fates) ensures n in Elems(toll.doomed) {
      RemovedAt(toll.doomed, toll.fates, n);
    }
  }

  /** Exactly the entries outside the newest unexpired were doomed, and what is left is the directory without
      those that are lost. */
  ghost predicate PruneDone(before: Dir, now: Dir, kept: set<string>, toll: Toll, cutoff: int, keep: nat, stuck: set<string>) {
    && IsNewest(kept, Unexpired(EntryNames(before), OlderThan(cutoff)), keep)
    && Distinct(toll.doomed) && Elems(toll.doomed) == EntryNames(before) - kept
    && Levied(before, now, toll, stuck)
  }

  // ---------------------------------------------------------------- a whole enqueue

  /** What a prune and then a commit leave of the entries. */
  lemma EnqueueEntries(before: Dir, toll: Toll, kept: set<string>, stuck: set<string>,
                       mid: Dir, took: set<string>, after: Dir, added: set<string>)
    requires Levied(before, mid, toll, stuck) && kept <= EntryNames(before) && Elems(toll.doomed) == EntryNames(before) - kept
    requires EntryNames(after) == (EntryNames(mid) - took) + added
    requires Unchanged(EntryNames(after) - added, mid, after)
    ensures EntryNames(after) == (EntryNames(before) - Lost(toll) - took) + added && Lost(toll) <= EntryNames(before)
    ensures EntryNames(before) - Elems(toll.doomed) - toll.others - took <= EntryNames(after)
    ensures Unchanged(EntryNames(after) - added, before, after)
    ensures toll.others == {} && took == {} ==> EntryNames(after) == kept + (EntryNames(before) * stuck) + added
    ensures EntryNames(after) <= kept + (EntryNames(before) * stuck) + added
  {
    EntriesMinus(before, Lost(toll));
    LostIsThere(EntryNames(before), toll, stuck);
    LostWasDoomed(EntryNames(before), toll, stuck);
    if toll.others == {} { AllFreeRemoved(EntryNames(before), toll, stuck); }
    AllGone(EntryNames(before), toll, stuck);
  }

  lemma EnqueueBound(kept: set<string>, unexpired: set<string>, keep: nat, after: set<string>, name: string)
    requires IsNewest(kept, unexpired, keep) && after <= kept + {name}
    ensures |after| <= keep + 1
  {
    SubsetSize(after, kept + {name});
  }

  ghost predicate ListedSoFar(found: seq<string>, rest: set<string>, entries: set<string>) {
    && Sorted(found)
    && Elems(found) + rest == entries
    && forall i, n :: 0 <= i < |found| && n in rest ==> Before(found[i], n)
  }

  lemma ListMore(found: seq<string>, rest: set<string>, entries: set<string>, first: string)
    requires ListedSoFar(found, rest, entries)
    requires first in rest && forall n :: n in rest - {first} ==> Before(first, n)
    ensures ListedSoFar(found + [first], rest - {first}, entries)
  {
    assert Elems(found + [first]) == Elems(found) + {first};
  }

  lemma StaysFree(dir: Dir, lost: set<string>, name: string)
    requires lost <= EntryNames(dir)
    ensures NameIsFree(dir - lost, name) <==> NameIsFree(dir, name)
  {
    assert forall n :: n in lost ==> IsEntry(dir, n);
  }

  predicate Unchanged(names: set<string>, a: Dir, b: Dir) {
    forall n :: n in names ==> n in a && n in b && a[n] == b[n]
  }

  lemma SuffixFacts(name: string, nano: int, seqNo: nat)
    requires name == SpoolName(nano, seqNo)
    ensures HasSuffix(name) && !HasSuffix(name + ".tmp") && name != name + ".tmp"
  {
    assert (name + ".tmp")[|name| + 3] == 'p';
  }

  /** A file that is no entry by its name leaves the entries as they are. */
  lemma PutOther(m: Dir, name: string, f: File)
    requires !HasSuffix(name)
    ensures EntryNames(m[name := f]) == EntryNames(m) && Unchanged(EntryNames(m), m, m[name := f])
  {
  }

  lemma DropOther(m: Dir, name: string)
    requires !HasSuffix(name)
    ensures EntryNames(m - {name}) == EntryNames(m) && Unchanged(EntryNames(m), m, m - {name})
  {
  }

  lemma TmpLeavesNothing(m: Dir, tmp: string, f: File, took: set<string>)
    ensures m[tmp := f] - took - {tmp} == m - took - {tmp}
  {
  }

  lemma PutEntry(m: Dir, name: string, e: SpoolEntry)
    requires HasSuffix(name)
    ensures EntryNames(m[name := Entry(e)]) == EntryNames(m) + {name}
    ensures Unchanged(EntryNames(m) - {name}, m, m[name := Entry(e)])
  {
  }

  /** An entry that is not written leaves all but its temporary file as it was. */
  lemma CommitFailed(was: Dir, tmp: string, took: set<string>, now: Dir)
    requires !HasSuffix(tmp) && took <= EntryNames(was) && now - {tmp} == was - took - {tmp}
    ensures EntryNames(now) == EntryNames(was) - took && Unchanged(EntryNames(now), was, now)
  {
    forall n ensures n in EntryNames(now) <==> n in EntryNames(was) - took {
      if n != tmp { assert n in now <==> n in now - {tmp}; }
    }
    forall n | n in EntryNames(now) ensures n in was && now[n] == was[n] {
      assert n in now - {tmp} && (now - {tmp})[n] == (was - took - {tmp})[n];
    }
  }

  lemma CommitDone(was: Dir, name: string, tmp: string, entry: SpoolEntry, took: set<string>, now: Dir)
    requires !HasSuffix(tmp) && HasSuffix(name) && took <= EntryNames(was)
    requires now == (was - took - {tmp})[name := Entry(entry)]
    ensures EntryNames(now) == (EntryNames(was) - took) + {name} && Unchanged(EntryNames(now) - {name}, was, now)
  {
    CommitFailed(was, tmp, took, was - took - {tmp});
    PutEntry(was - took - {tmp}, name, entry);
  }

  lemma NothingToPrune(listing: seq<string>, dir: Dir, cutoff: int, keep: nat, stuck: set<string>)
    requires Listing(listing, EntryNames(dir)) && |listing| == 0
    ensures PruneDone(dir, dir, {}, Toll([], [], {}), cutoff, keep, stuck) && Counted([]) == 0
  {
    NothingLevied(dir, stuck);
    assert EntryNames(dir) == {} && Unexpired(EntryNames(dir), OlderThan(cutoff)) == {};
  }

  /** How a listing falls apart into expired, evicted and kept names. */
  lemma PruneParts(listing: seq<string>, stale: iset<string>, keep: nat)
    returns (survivors: seq<string>, expired: seq<string>, evicted: seq<string>, kept: set<string>)
    requires Sorted(listing)
    ensures Distinct(listing) && Distinct(survivors) && Distinct(expired + survivors) && Distinct(expired + evicted)
    ensures survivors == Pick(listing, stale, false) && expired == Pick(listing, stale, true)
    ensures evicted == survivors[..Max(0, |survivors| - keep)]
    ensures Elems(survivors) <= Elems(listing) && Elems(expired) !! Elems(survivors)
    ensures Elems(listing) - kept == Elems(expired) + Elems(evicted)
    ensures IsNewest(kept, Unexpired(Elems(listing), stale), keep)
  {
    PickLists(listing, stale);
    SortedIsDistinct(listing);
    survivors, expired := Pick(listing, stale, false), Pick(listing, stale, true);
    SortedIsDistinct(survivors);
    SortedIsDistinct(expired);
    TailIsNewest(survivors, keep);
    var lo := Max(0, |survivors| - keep);
    evicted, kept := survivors[..lo], Elems(survivors[lo..]);
    EvictedSet(survivors, Elems(expired), Elems(listing), lo);
    DistinctAppend(expired, survivors);
    DistinctAppend(expired, evicted);
  }

  lemma EvictedSet(survivors: seq<string>, expired: set<string>, entries: set<string>, lo: nat)
    requires Distinct(survivors) && lo <= |survivors|
    requires Elems(survivors) + expired == entries && Elems(survivors) !! expired
    ensures entries - Elems(survivors[lo..]) == expired + Elems(survivors[..lo])
    ensures expired !! Elems(survivors[..lo]) && Distinct(survivors[..lo])
  {
    TailIsRest(survivors, lo);
    forall n | n in Elems(survivors[..lo]) ensures n in Elems(survivors) {}
  }

  lemma DistinctAppend(a: seq<string>, b: seq<string>)
    requires Distinct(a) && Distinct(b) && Elems(a) !! Elems(b)
    ensures Distinct(a + b)
  {
    forall i, j | 0 <= i < j < |a + b| ensures (a + b)[i] != (a + b)[j] {
      if i < |a| <= j { assert a[i] in Elems(a) && b[j - |a|] in Elems(b); }
    }
  }

  lemma SetsOf(a: seq<string>, b: seq<string>)
    ensures Elems(a + b) == Elems(a) + Elems(b)
  {
  }

  lemma EntriesMinus(m: Dir, a: set<string>)
    ensures EntryNames(m - a) == EntryNames(m) - a
  {
  }
}
