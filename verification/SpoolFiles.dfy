/** The spool directory and what pruning means for it. */
module SpoolFiles {
  import opened Numbers
  import opened SpoolNames

  datatype SpoolEntry = SpoolEntry(postId: string, result: seq<int>, createdAt: int)

  /** Garbage is any file whose contents do not parse, a partly written one included. */
  datatype File = Entry(e: SpoolEntry) | Garbage | Folder

  type Dir = map<string, File>

  predicate IsEntry(dir: Dir, name: string) { name in dir && HasSuffix(name) && !dir[name].Folder? }

  function EntryNames(dir: Dir): set<string> { set n | n in dir && IsEntry(dir, n) }

  predicate Sorted(names: seq<string>) {
    forall i, j :: 0 <= i < j < |names| ==> Before(names[i], names[j])
  }

  /** All a listing's order is needed for while files are being removed. */
  predicate Distinct(names: seq<string>) {
    forall i, j :: 0 <= i < j < |names| ==> names[i] != names[j]
  }

  lemma SortedIsDistinct(names: seq<string>)
    requires Sorted(names)
    ensures Distinct(names)
  {
    forall i, j | 0 <= i < j < |names| ensures names[i] != names[j] {
      BeforeIrreflexive(names[i]);
    }
  }

  function Elems(names: seq<string>): set<string> { set n | n in names }

  /** The directory listing: the entries, oldest name first. */
  ghost predicate Listing(names: seq<string>, entries: set<string>) {
    Sorted(names) && Elems(names) == entries
  }

  predicate Expired(name: string, cutoff: int) {
    HasSuffix(name) && match SpoolFileTime(name) case Some(t) => t < cutoff case None => false
  }

  /** The test pruning applies to each name. */
  ghost function OlderThan(cutoff: int): iset<string> { iset n: string | Expired(n, cutoff) }

  /** For a name the spool made, expiry by name is expiry by content. */
  lemma ExpiryAgrees(e: SpoolEntry, seqNo: nat, cutoff: int)
    requires IsInt64(e.createdAt)
    ensures (Expired(SpoolName(e.createdAt, seqNo), cutoff) <==> e.createdAt < cutoff) <==> e.createdAt >= 0 || e.createdAt >= cutoff
  {
    TimeReadsBack(e.createdAt, seqNo);
  }

  /** A listing is in the order of creation, as long as no two of its times are before 1970. */
  lemma ListedOldestFirst(names: seq<string>, i: nat, j: nat, a: int, s: nat, b: int, t: nat)
    requires Sorted(names) && i < j < |names| && names[i] == SpoolName(a, s) && names[j] == SpoolName(b, t)
    requires IsInt64(a) && IsInt64(b)
    ensures a < 0 && b < 0 ==> a >= b
    ensures a >= 0 || b >= 0 ==> a <= b
    ensures a == b && s < 1_000_000 && t < 1_000_000 ==> s < t
  {
    BeforeIrreflexive(names[i]);
    if a < b {
      TimeOrder(a, s, b, t);
      NotBoth(names[i], names[j]);
    } else if b < a {
      TimeOrder(b, t, a, s);
      NotBoth(names[i], names[j]);
    } else if t < s {
      EqualTimeOrder(a, t, s);
      NotBoth(names[i], names[j]);
    }
  }

  lemma NotBoth(x: string, y: string)
    requires Before(x, y)
    ensures !Before(y, x)
  {
    if Before(y, x) {
      BeforeTransitive(x, y, x);
      BeforeIrreflexive(x);
    }
  }

  // ---------------------------------------------------------------- what pruning keeps

  ghost function Unexpired(entries: set<string>, stale: iset<string>): set<string> {
    set n | n in entries && n !in stale
  }

  /** `kept` is the newest `keep` of the entries, or all of them if there are fewer. */
  ghost predicate IsNewest(kept: set<string>, entries: set<string>, keep: nat) {
    && kept <= entries
    && |kept| == Min(keep, |entries|)
    && forall a, b :: a in kept && b in entries && b !in kept ==> Before(b, a)
  }

  /** That settles which entries they are. */
  lemma NewestIsUnique(k1: set<string>, k2: set<string>, entries: set<string>, keep: nat)
    requires IsNewest(k1, entries, keep) && IsNewest(k2, entries, keep)
    ensures k1 == k2
  {
    if k1 != k2 {
      if k1 <= k2 {
        StrictSubsetSize(k1, k2);
      } else if k2 <= k1 {
        StrictSubsetSize(k2, k1);
      } else {
        var a :| a in k1 && a !in k2;
        var b :| b in k2 && b !in k1;
        BeforeTransitive(a, b, a);
        BeforeIrreflexive(a);
      }
    }
  }

  lemma StrictSubsetSize(a: set<string>, b: set<string>)
    requires a < b
    ensures |a| < |b|
  {
    assert b == a + (b - a);
    assert |b| == |a| + |b - a|;
  }

  /** The names of a list that are stale, or those that are not, in order. */
  ghost function Pick(names: seq<string>, stale: iset<string>, want: bool): seq<string> {
    if names == [] then []
    else
      var n := |names| - 1;
      Pick(names[..n], stale, want) + (if (names[n] in stale) == want then [names[n]] else [])
  }

  lemma PickMore(names: seq<string>, i: nat, stale: iset<string>, want: bool)
    requires i < |names|
    ensures Pick(names[..i + 1], stale, want)
            == Pick(names[..i], stale, want) + (if (names[i] in stale) == want then [names[i]] else [])
  {
    assert names[..i + 1][..i] == names[..i];
  }

  lemma {:induction false} PickElems(names: seq<string>, stale: iset<string>, want: bool, m: string)
    ensures m in Pick(names, stale, want) <==> m in names && (m in stale) == want
  {
    if names != [] {
      PickElems(names[..|names| - 1], stale, want, m);
      assert names == names[..|names| - 1] + [names[|names| - 1]];
    }
  }

  lemma {:induction false} PickSorted(names: seq<string>, stale: iset<string>, want: bool)
    requires Sorted(names)
    ensures Sorted(Pick(names, stale, want))
  {
    if names != [] {
      var n := |names| - 1;
      PickSorted(names[..n], stale, want);
      var f := Pick(names[..n], stale, want);
      forall i | 0 <= i < |f| ensures Before(f[i], names[n]) {
        PickElems(names[..n], stale, want, f[i]);
        var j :| 0 <= j < n && names[j] == f[i];
      }
    }
  }

  lemma PickLists(names: seq<string>, stale: iset<string>)
    requires Sorted(names)
    ensures Sorted(Pick(names, stale, false)) && Sorted(Pick(names, stale, true))
    ensures Elems(Pick(names, stale, false)) == Unexpired(Elems(names), stale)
    ensures Elems(Pick(names, stale, true)) == Elems(names) - Unexpired(Elems(names), stale)
  {
    PickSorted(names, stale, false);
    PickSorted(names, stale, true);
    forall m
      ensures m in Pick(names, stale, false) <==> m in names && m !in stale
      ensures m in Pick(names, stale, true) <==> m in names && m in stale
    {
      PickElems(names, stale, false, m);
      PickElems(names, stale, true, m);
    }
  }

  /** How many of the names can be removed. */
  function CountFree(names: seq<string>, stuck: set<string>): nat {
    if names == [] then 0
    else CountFree(names[..|names| - 1], stuck) + (if names[|names| - 1] in stuck then 0 else 1)
  }

  lemma CountMore(names: seq<string>, name: string, stuck: set<string>)
    ensures CountFree(names + [name], stuck) == CountFree(names, stuck) + if name in stuck then 0 else 1
  {
    assert (names + [name])[..|names|] == names;
  }

  lemma {:induction false} CountFreeIsSize(names: seq<string>, stuck: set<string>)
    requires Distinct(names)
    ensures CountFree(names, stuck) == |Elems(names) - stuck|
  {
    if names != [] {
      var n := |names| - 1;
      CountFreeIsSize(names[..n], stuck);
      NextName(names, n);
      assert names[..n + 1] == names;
      var before := Elems(names[..n]) - stuck;
      if names[n] in stuck {
        assert Elems(names) - stuck == before;
      } else {
        assert Elems(names) - stuck == before + {names[n]};
      }
    }
  }

  lemma NextName(names: seq<string>, i: nat)
    requires Distinct(names) && i < |names|
    ensures Elems(names[..i + 1]) == Elems(names[..i]) + {names[i]} && names[i] !in Elems(names[..i])
  {
    assert names[..i + 1] == names[..i] + [names[i]];
  }

  lemma SortedCount(names: seq<string>)
    requires Sorted(names)
    ensures |Elems(names)| == |names|
  {
    SortedIsDistinct(names);
    CountFreeIsSize(names, {});
    AllFree(names);
    assert Elems(names) - {} == Elems(names);
  }

  lemma {:induction false} AllFree(names: seq<string>)
    ensures CountFree(names, {}) == |names|
  {
    if names != [] { AllFree(names[..|names| - 1]); }
  }

  lemma TailIsRest(names: seq<string>, i: nat)
    requires Distinct(names) && i <= |names|
    ensures Elems(names[i..]) == Elems(names) - Elems(names[..i])
  {
    assert names == names[..i] + names[i..];
  }

  /** The last `keep` names of a listing are the newest. */
  lemma TailIsNewest(names: seq<string>, keep: nat)
    requires Sorted(names)
    ensures IsNewest(Elems(names[Max(0, |names| - keep)..]), Elems(names), keep)
  {
    var lo := Max(0, |names| - keep);
    SortedIsDistinct(names);
    TailIsRest(names, lo);
    SortedCount(names);
    SortedCount(names[lo..]);
    forall a, b | a in names[lo..] && b in Elems(names) && b !in names[lo..] ensures Before(b, a) {
      var i :| 0 <= i < |names| - lo && names[lo..][i] == a;
      assert b in Elems(names[..lo]);
      var j :| 0 <= j < lo && names[j] == b;
      assert Before(names[j], names[lo + i]);
    }
  }

  lemma {:induction false} FirstName(names: set<string>) returns (m: string)
    requires names != {}
    ensures m in names && forall n :: n in names ==> n == m || Before(m, n)
    decreases |names|
  {
    var x :| x in names;
    if names == {x} {
      m := x;
    } else {
      var rest := names - {x};
      assert |rest| < |names|;
      var y := FirstName(rest);
      if Before(x, y) {
        m := x;
        forall n | n in names ensures n == m || Before(m, n) {
          if n in rest && n != y { BeforeTransitive(x, y, n); }
        }
      } else {
        m := y;
        BeforeTotal(x, y);
      }
    }
  }

  /** Every set of names can be listed. */
  lemma {:induction false} SortAll(entries: set<string>) returns (names: seq<string>)
    ensures Listing(names, entries)
    decreases |entries|
  {
    if entries == {} {
      names := [];
    } else {
      var m := FirstName(entries);
      var rest := SortAll(entries - {m});
      names := [m] + rest;
      forall i | 0 <= i < |rest| ensures Before(m, rest[i]) {
        assert rest[i] in Elems(rest);
      }
      assert Elems(names) == {m} + Elems(rest);
    }
  }
}
