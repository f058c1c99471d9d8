/**
 * The two ways the code groups metadata records.
 *
 * `GroupBy` is the `groupby` helper of every manager: a dictionary comprehension
 * over `itertools.groupby`, which splits the records into runs of consecutive
 * equal keys and then assigns each run to its key, so that a key whose records
 * are not contiguous keeps the position of its first run but the value of its
 * last run.  `GroupFirstSeen` is the explicit loop of the schema manager, which
 * appends every record to the list of its key.
 *
 * An ordered dictionary is a sequence of groups with distinct keys, in insertion
 * order (Python dictionaries keep insertion order).
 */
module Grouping {
  import opened Common
  import opened Ordering

  datatype Group<R> = Group(key: string, members: seq<R>)

  function Keys<R>(d: seq<Group<R>>): (ks: seq<string>)
    ensures |ks| == |d|
    ensures forall i :: 0 <= i < |d| ==> ks[i] == d[i].key
    decreases |d|
  {
    if d == [] then [] else [d[0].key] + Keys(d[1..])
  }

  predicate DistinctKeys<R>(d: seq<Group<R>>) {
    forall i, j :: 0 <= i < j < |d| ==> d[i].key != d[j].key
  }

  /** `d.get(k)`. */
  function Lookup<R>(d: seq<Group<R>>, k: string): (r: Option<seq<R>>)
    ensures r.Some? <==> k in Keys(d)
    decreases |d|
  {
    if d == [] then None
    else if d[0].key == k then Some(d[0].members)
    else Lookup(d[1..], k)
  }

  /** The keys of the records, in record order. */
  function KeyList<R>(rs: seq<R>, key: R -> string): (ks: seq<string>)
    ensures |ks| == |rs|
    ensures forall i :: 0 <= i < |rs| ==> ks[i] == key(rs[i])
    decreases |rs|
  {
    if rs == [] then [] else KeyList(rs[..|rs| - 1], key) + [key(rs[|rs| - 1])]
  }

  /** A key is in the key list exactly when some record has it. */
  lemma KeyListHas<R>(rs: seq<R>, key: R -> string, k: string)
    ensures k in KeyList(rs, key) <==> exists r :: r in rs && key(r) == k
  {
    var kl := KeyList(rs, key);
    if k in kl {
      var j :| 0 <= j < |kl| && kl[j] == k;
      assert rs[j] in rs;
    }
    if exists r :: r in rs && key(r) == k {
      var r :| r in rs && key(r) == k;
      var j :| 0 <= j < |rs| && rs[j] == r;
      assert kl[j] == k;
    }
  }

  /** The records whose key is `k`, in record order. */
  function Filter<R>(rs: seq<R>, key: R -> string, k: string): (f: seq<R>)
    ensures |f| <= |rs|
    ensures forall x :: x in f ==> x in rs && key(x) == k
    decreases |rs|
  {
    if rs == [] then []
    else Filter(rs[..|rs| - 1], key, k) + (if key(rs[|rs| - 1]) == k then [rs[|rs| - 1]] else [])
  }

  function Flatten<R>(gs: seq<Group<R>>): seq<R>
    decreases |gs|
  {
    if gs == [] then [] else gs[0].members + Flatten(gs[1..])
  }

  /** Records with equal keys are adjacent: what sorting by the key guarantees. */
  predicate Contiguous<R>(rs: seq<R>, key: R -> string) {
    forall i, j, k :: 0 <= i < j < k < |rs| && key(rs[i]) == key(rs[k]) ==> key(rs[j]) == key(rs[i])
  }

  /** Every group is a non-empty run whose members all carry the group's key. */
  ghost predicate Homogeneous<R>(gs: seq<Group<R>>, key: R -> string) {
    forall i :: 0 <= i < |gs| ==>
      |gs[i].members| > 0 && forall x :: x in gs[i].members ==> key(x) == gs[i].key
  }

  // ---------------------------------------------------------------------------
  // itertools.groupby and the dictionary comprehension over it
  // ---------------------------------------------------------------------------

  /** The maximal runs of consecutive records with equal keys (`itertools.groupby`). */
  function Runs<R>(rs: seq<R>, key: R -> string): (gs: seq<Group<R>>)
    ensures |gs| <= |rs|
    ensures rs == [] <==> gs == []
    ensures gs != [] ==> gs[0].key == key(rs[0])
    decreases |rs|
  {
    if rs == [] then []
    else
      var t := Runs(rs[1..], key);
      if t != [] && t[0].key == key(rs[0]) then [Group(key(rs[0]), [rs[0]] + t[0].members)] + t[1..]
      else [Group(key(rs[0]), [rs[0]])] + t
  }

  /** Dictionary assignment `d[g.key] = g.members`: an existing key keeps its position. */
  function Put<R>(d: seq<Group<R>>, g: Group<R>): (r: seq<Group<R>>)
    decreases |d|
  {
    if d == [] then [g]
    else if d[0].key == g.key then [g] + d[1..]
    else [d[0]] + Put(d[1..], g)
  }

  /** `{k: v for k, v in gs}`. */
  function FromPairs<R>(gs: seq<Group<R>>): seq<Group<R>>
    decreases |gs|
  {
    if gs == [] then [] else Put(FromPairs(gs[..|gs| - 1]), gs[|gs| - 1])
  }

  /** The `groupby` helper: `{k: list(l) for k, l in itertools.groupby(records, key)}`. */
  function GroupBy<R>(rs: seq<R>, key: R -> string): seq<Group<R>> {
    FromPairs(Runs(rs, key))
  }

  /** Reference definition of what a dictionary built from pairs maps `k` to: the last pair's value. */
  function LastValue<R>(gs: seq<Group<R>>, k: string): Option<seq<R>>
    decreases |gs|
  {
    if gs == [] then None
    else if gs[|gs| - 1].key == k then Some(gs[|gs| - 1].members)
    else LastValue(gs[..|gs| - 1], k)
  }

  // ---------------------------------------------------------------------------
  // Lemmas: runs
  // ---------------------------------------------------------------------------

  /** The runs are non-empty, homogeneous, and concatenate back to the input. */
  lemma RunsPartition<R>(rs: seq<R>, key: R -> string)
    ensures Homogeneous(Runs(rs, key), key)
    ensures Flatten(Runs(rs, key)) == rs
  {
    RunsHomogeneous(rs, key);
    RunsFlatten(rs, key);
  }

  lemma {:induction false} RunsHomogeneous<R>(rs: seq<R>, key: R -> string)
    ensures Homogeneous(Runs(rs, key), key)
    decreases |rs|
  {
    if rs != [] {
      RunsHomogeneous(rs[1..], key);
      var t := Runs(rs[1..], key);
      var gs := Runs(rs, key);
      if t != [] && t[0].key == key(rs[0]) {
        assert gs == [Group(key(rs[0]), [rs[0]] + t[0].members)] + t[1..];
        assert forall i :: 1 <= i < |gs| ==> gs[i] == t[i];
      } else {
        assert gs == [Group(key(rs[0]), [rs[0]])] + t;
        assert forall i :: 1 <= i < |gs| ==> gs[i] == t[i - 1];
      }
    }
  }

  lemma {:induction false} RunsFlatten<R>(rs: seq<R>, key: R -> string)
    ensures Flatten(Runs(rs, key)) == rs
    decreases |rs|
  {
    if rs != [] {
      RunsFlatten(rs[1..], key);
      var t := Runs(rs[1..], key);
      var gs := Runs(rs, key);
      if t != [] && t[0].key == key(rs[0]) {
        assert gs == [Group(key(rs[0]), [rs[0]] + t[0].members)] + t[1..];
        assert gs[1..] == t[1..];
        assert Flatten(t) == t[0].members + Flatten(t[1..]);
        assert Flatten(gs) == [rs[0]] + t[0].members + Flatten(t[1..]);
      } else {
        assert gs == [Group(key(rs[0]), [rs[0]])] + t;
        assert gs[1..] == t;
      }
      assert [rs[0]] + rs[1..] == rs;
    }
  }

  /** Every key of a run is the key of some record. */
  lemma {:induction false} RunKeysOccur<R>(rs: seq<R>, key: R -> string, k: string)
    requires k in Keys(Runs(rs, key))
    ensures exists i :: 0 <= i < |rs| && key(rs[i]) == k
    decreases |rs|
  {
    var t := Runs(rs[1..], key);
    var gs := Runs(rs, key);
    if k == key(rs[0]) {
    } else {
      if t != [] && t[0].key == key(rs[0]) {
        assert gs == [Group(key(rs[0]), [rs[0]] + t[0].members)] + t[1..];
        var m :| 0 <= m < |gs| && gs[m].key == k;
        assert m >= 1 && gs[m] == t[m];
      } else {
        assert gs == [Group(key(rs[0]), [rs[0]])] + t;
        var m :| 0 <= m < |gs| && gs[m].key == k;
        assert m >= 1 && gs[m] == t[m - 1];
      }
      assert k in Keys(t);
      RunKeysOccur(rs[1..], key, k);
      var i :| 0 <= i < |rs[1..]| && key(rs[1..][i]) == k;
      assert key(rs[i + 1]) == k;
    }
  }

  /** On contiguous records, once the key changes the first key never comes back. */
  lemma ContiguousHeadGone<R>(rs: seq<R>, key: R -> string, i: nat)
    requires Contiguous(rs, key)
    requires 1 < |rs| && key(rs[1]) != key(rs[0])
    requires 1 <= i < |rs|
    ensures key(rs[i]) != key(rs[0])
  {
  }

  /** On contiguous records no key has two runs. */
  lemma {:induction false} RunsDistinctWhenContiguous<R>(rs: seq<R>, key: R -> string)
    requires Contiguous(rs, key)
    ensures DistinctKeys(Runs(rs, key))
    decreases |rs|
  {
    if rs != [] {
      var rest := rs[1..];
      assert Contiguous(rest, key) by {
        forall i, j, k | 0 <= i < j < k < |rest| && key(rest[i]) == key(rest[k])
          ensures key(rest[j]) == key(rest[i])
        {
          assert rest[i] == rs[i + 1] && rest[j] == rs[j + 1] && rest[k] == rs[k + 1];
        }
      }
      RunsDistinctWhenContiguous(rest, key);
      var t := Runs(rest, key);
      var gs := Runs(rs, key);
      if t != [] && t[0].key == key(rs[0]) {
        assert gs == [Group(key(rs[0]), [rs[0]] + t[0].members)] + t[1..];
        assert forall i :: 0 <= i < |gs| ==> gs[i].key == t[i].key;
      } else {
        assert gs == [Group(key(rs[0]), [rs[0]])] + t;
        forall m | 0 <= m < |t|
          ensures t[m].key != key(rs[0])
        {
          assert t[m].key in Keys(t);
          RunKeysOccur(rest, key, t[m].key);
          var i :| 0 <= i < |rest| && key(rest[i]) == t[m].key;
          assert key(rest[0]) == t[0].key;
          ContiguousHeadGone(rs, key, i + 1);
        }
        assert forall i :: 1 <= i < |gs| ==> gs[i] == t[i - 1];
      }
    }
  }

  // ---------------------------------------------------------------------------
  // Lemmas: the dictionary built from pairs
  // ---------------------------------------------------------------------------

  lemma {:induction false} PutKeys<R>(d: seq<Group<R>>, g: Group<R>)
    requires DistinctKeys(d)
    ensures DistinctKeys(Put(d, g))
    ensures Keys(Put(d, g)) == if g.key in Keys(d) then Keys(d) else Keys(d) + [g.key]
    decreases |d|
  {
    if d != [] && d[0].key != g.key {
      var tail := d[1..];
      assert DistinctKeys(tail) by {
        forall i, j | 0 <= i < j < |tail| ensures tail[i].key != tail[j].key {
          assert tail[i] == d[i + 1] && tail[j] == d[j + 1];
        }
      }
      PutKeys(tail, g);
      var p := Put(d, g);
      assert p == [d[0]] + Put(tail, g);
      assert Keys(d) == [d[0].key] + Keys(tail);
      assert Keys(p) == [d[0].key] + Keys(Put(tail, g));
      assert g.key in Keys(d) <==> g.key in Keys(tail);
      forall i | 0 < i < |d| ensures d[i].key != d[0].key {}
      assert d[0].key !in Keys(tail);
      assert d[0].key !in Keys(Put(tail, g));
      forall i, j | 0 <= i < j < |p| ensures p[i].key != p[j].key {
        if i == 0 {
          assert p[j] == Put(tail, g)[j - 1];
          assert Keys(Put(tail, g))[j - 1] == p[j].key;
        } else {
          assert p[i] == Put(tail, g)[i - 1] && p[j] == Put(tail, g)[j - 1];
        }
      }
    } else if d != [] {
      var p := Put(d, g);
      assert p == [g] + d[1..];
      assert Keys(d) == [d[0].key] + Keys(d[1..]);
      assert Keys(p) == [g.key] + Keys(d[1..]);
      forall i, j | 0 <= i < j < |p| ensures p[i].key != p[j].key {
        assert p[i].key == d[i].key && p[j].key == d[j].key;
      }
    }
  }

  lemma {:induction false} PutLookup<R>(d: seq<Group<R>>, g: Group<R>, k: string)
    ensures Lookup(Put(d, g), k) == if k == g.key then Some(g.members) else Lookup(d, k)
    decreases |d|
  {
    if d != [] && d[0].key != g.key {
      PutLookup(d[1..], g, k);
    } else if d != [] {
      assert Put(d, g)[1..] == d[1..];
    }
  }

  /** A dictionary built from pairs has distinct keys in first-seen order. */
  lemma {:induction false} FromPairsKeys<R>(gs: seq<Group<R>>)
    ensures DistinctKeys(FromPairs(gs))
    ensures Keys(FromPairs(gs)) == Dedup(Keys(gs))
    decreases |gs|
  {
    if gs != [] {
      var init := gs[..|gs| - 1];
      var last := gs[|gs| - 1];
      FromPairsKeys(init);
      PutKeys(FromPairs(init), last);
      var ks := Keys(gs);
      assert ks[..|ks| - 1] == Keys(init);
      assert ks[|ks| - 1] == last.key;
      var before := Dedup(Keys(init));
      assert Dedup(ks) == if last.key in before then before else before + [last.key];
      assert FromPairs(gs) == Put(FromPairs(init), last);
    }
  }

  /** Each key of a dictionary built from pairs holds the value of its last pair. */
  lemma {:induction false} FromPairsLookup<R>(gs: seq<Group<R>>, k: string)
    ensures Lookup(FromPairs(gs), k) == LastValue(gs, k)
    decreases |gs|
  {
    if gs != [] {
      var init := gs[..|gs| - 1];
      var last := gs[|gs| - 1];
      FromPairsLookup(init, k);
      PutLookup(FromPairs(init), last, k);
      assert FromPairs(gs) == Put(FromPairs(init), last);
    }
  }

  /** Assigning fresh keys only: the dictionary is the pair list itself. */
  lemma {:induction false} FromPairsDistinct<R>(gs: seq<Group<R>>)
    requires DistinctKeys(gs)
    ensures FromPairs(gs) == gs
    decreases |gs|
  {
    if gs != [] {
      var init := gs[..|gs| - 1];
      var last := gs[|gs| - 1];
      assert DistinctKeys(init) by {
        forall i, j | 0 <= i < j < |init| ensures init[i].key != init[j].key {
          assert init[i] == gs[i] && init[j] == gs[j];
        }
      }
      FromPairsDistinct(init);
      PutFresh(init, last);
      assert init + [last] == gs;
    }
  }

  lemma {:induction false} PutFresh<R>(d: seq<Group<R>>, g: Group<R>)
    requires forall i :: 0 <= i < |d| ==> d[i].key != g.key
    ensures Put(d, g) == d + [g]
    decreases |d|
  {
    if d != [] {
      PutFresh(d[1..], g);
      assert [d[0]] + (d[1..] + [g]) == d + [g];
    }
  }

  // ---------------------------------------------------------------------------
  // Lemmas: filtering
  // ---------------------------------------------------------------------------

  lemma {:induction false} FilterConcat<R>(a: seq<R>, b: seq<R>, key: R -> string, k: string)
    ensures Filter(a + b, key, k) == Filter(a, key, k) + Filter(b, key, k)
    decreases |b|
  {
    if b == [] {
      assert a + b == a;
    } else {
      var b', x := b[..|b| - 1], b[|b| - 1];
      FilterConcat(a, b', key, k);
      ConcatSnoc(a, b);
      FilterSnoc(a + b', x, key, k);
      FilterSnoc(b', x, key, k);
      ConcatAssoc(Filter(a, key, k), Filter(b', key, k), if key(x) == k then [x] else []);
    }
  }

  lemma FilterSnoc<R>(rs: seq<R>, x: R, key: R -> string, k: string)
    ensures Filter(rs + [x], key, k) == Filter(rs, key, k) + (if key(x) == k then [x] else [])
  {
    assert (rs + [x])[..|rs|] == rs;
  }

  lemma {:induction false} FilterAll<R>(rs: seq<R>, key: R -> string, k: string)
    requires forall x :: x in rs ==> key(x) == k
    ensures Filter(rs, key, k) == rs
    decreases |rs|
  {
    if rs != [] {
      FilterAll(rs[..|rs| - 1], key, k);
      assert rs[..|rs| - 1] + [rs[|rs| - 1]] == rs;
    }
  }

  lemma {:induction false} FilterNone<R>(rs: seq<R>, key: R -> string, k: string)
    requires forall x :: x in rs ==> key(x) != k
    ensures Filter(rs, key, k) == []
    decreases |rs|
  {
    if rs != [] {
      FilterNone(rs[..|rs| - 1], key, k);
    }
  }

  lemma {:induction false} FilterFlatten<R>(gs: seq<Group<R>>, key: R -> string, k: string)
    requires Homogeneous(gs, key) && DistinctKeys(gs)
    ensures Filter(Flatten(gs), key, k) == (if k in Keys(gs) then Lookup(gs, k).value else [])
    decreases |gs|
  {
    if gs != [] {
      var tail := gs[1..];
      assert Homogeneous(tail, key) by {
        forall i | 0 <= i < |tail| ensures |tail[i].members| > 0 {
          assert tail[i] == gs[i + 1];
        }
        forall i, x | 0 <= i < |tail| && x in tail[i].members ensures key(x) == tail[i].key {
          assert tail[i] == gs[i + 1];
        }
      }
      assert DistinctKeys(tail) by {
        forall i, j | 0 <= i < j < |tail| ensures tail[i].key != tail[j].key {
          assert tail[i] == gs[i + 1] && tail[j] == gs[j + 1];
        }
      }
      FilterFlatten(tail, key, k);
      FilterConcat(gs[0].members, Flatten(tail), key, k);
      assert Keys(gs) == [gs[0].key] + Keys(tail);
      if gs[0].key == k {
        FilterAll(gs[0].members, key, k);
        forall i | 0 <= i < |tail| ensures tail[i].key != k {
          assert tail[i] == gs[i + 1];
        }
        assert k !in Keys(tail);
      } else {
        FilterNone(gs[0].members, key, k);
      }
    }
  }

  // ---------------------------------------------------------------------------
  // What the groupby helper promises
  // ---------------------------------------------------------------------------

  /** A key has a group exactly when some record carries it. */
  lemma RunKeysExactly<R>(rs: seq<R>, key: R -> string, k: string)
    ensures k in Keys(Runs(rs, key)) <==> k in KeyList(rs, key)
  {
    var gs := Runs(rs, key);
    if k in Keys(gs) {
      RunKeysOccur(rs, key, k);
    }
    if k in KeyList(rs, key) {
      RunsPartition(rs, key);
      var i :| 0 <= i < |rs| && key(rs[i]) == k;
      FlattenMember(gs, rs[i]);
      var m :| 0 <= m < |gs| && rs[i] in gs[m].members;
      assert gs[m].key == k;
      assert Keys(gs)[m] == k;
    }
  }

  /**
   * On contiguous records (the order the metadata queries sort by) grouping is
   * lossless: the groups are the runs, one per distinct key, in record order,
   * and each holds every record with that key and nothing else.
   */
  lemma GroupByContiguous<R>(rs: seq<R>, key: R -> string)
    requires Contiguous(rs, key)
    ensures GroupBy(rs, key) == Runs(rs, key)
    ensures DistinctKeys(GroupBy(rs, key))
    ensures Flatten(GroupBy(rs, key)) == rs
    ensures forall k :: k in Keys(GroupBy(rs, key)) <==> k in KeyList(rs, key)
    ensures forall i :: 0 <= i < |GroupBy(rs, key)| ==>
      GroupBy(rs, key)[i].members == Filter(rs, key, GroupBy(rs, key)[i].key)
  {
    RunsDistinctWhenContiguous(rs, key);
    FromPairsDistinct(Runs(rs, key));
    RunsPartition(rs, key);
    var gs := Runs(rs, key);
    forall i | 0 <= i < |gs| ensures gs[i].members == Filter(rs, key, gs[i].key) {
      FilterFlatten(gs, key, gs[i].key);
      LookupDistinct(gs, i);
      assert gs[i].key in Keys(gs);
    }
    forall k ensures k in Keys(gs) <==> k in KeyList(rs, key) {
      RunKeysExactly(rs, key, k);
    }
  }

  lemma {:induction false} LookupDistinct<R>(d: seq<Group<R>>, i: nat)
    requires DistinctKeys(d) && i < |d|
    ensures Lookup(d, d[i].key) == Some(d[i].members)
    decreases i
  {
    if i > 0 {
      var tail := d[1..];
      assert DistinctKeys(tail) by {
        forall a, b | 0 <= a < b < |tail| ensures tail[a].key != tail[b].key {
          assert tail[a] == d[a + 1] && tail[b] == d[b + 1];
        }
      }
      LookupDistinct(tail, i - 1);
      assert tail[i - 1] == d[i];
    }
  }

  lemma {:induction false} FlattenMember<R>(gs: seq<Group<R>>, x: R)
    requires x in Flatten(gs)
    ensures exists m :: 0 <= m < |gs| && x in gs[m].members
    decreases |gs|
  {
    if x !in gs[0].members {
      FlattenMember(gs[1..], x);
      var m :| 0 <= m < |gs[1..]| && x in gs[1..][m].members;
      assert gs[m + 1] == gs[1..][m];
    }
  }

  /**
   * On any records, the groupby helper keeps one entry per key in first-seen
   * order, and each key holds its LAST run only: the records of earlier runs are lost.
   */
  lemma GroupByGeneral<R>(rs: seq<R>, key: R -> string)
    ensures DistinctKeys(GroupBy(rs, key))
    ensures Keys(GroupBy(rs, key)) == Dedup(Keys(Runs(rs, key)))
    ensures forall k :: Lookup(GroupBy(rs, key), k) == LastValue(Runs(rs, key), k)
    ensures forall k :: k in Keys(GroupBy(rs, key)) <==> k in KeyList(rs, key)
  {
    var gs := Runs(rs, key);
    FromPairsKeys(gs);
    forall k ensures Lookup(GroupBy(rs, key), k) == LastValue(gs, k) {
      FromPairsLookup(gs, k);
    }
    forall k ensures k in Keys(GroupBy(rs, key)) <==> k in KeyList(rs, key) {
      RunKeysExactly(rs, key, k);
    }
  }

  function PairKey(p: (string, string)): string { p.0 }

  /** A key that reappears after another key keeps its first position but only its last record. */
  lemma GroupByDropsEarlierRun()
    ensures GroupBy([("1", "a"), ("2", "b"), ("1", "c")], PairKey)
         == [Group("1", [("1", "c")]), Group("2", [("2", "b")])]
  {
    var rs := [("1", "a"), ("2", "b"), ("1", "c")];
    assert rs[1..] == [("2", "b"), ("1", "c")];
    assert rs[1..][1..] == [("1", "c")];
    assert Runs([("1", "c")], PairKey) == [Group("1", [("1", "c")])];
    assert Runs(rs[1..], PairKey) == [Group("2", [("2", "b")]), Group("1", [("1", "c")])];
    var g1, g2, g3 := Group("1", [("1", "a")]), Group("2", [("2", "b")]), Group("1", [("1", "c")]);
    var gs := [g1, g2, g3];
    assert Runs(rs, PairKey) == gs;
    assert gs[..2] == [g1, g2];
    assert [g1, g2][..1] == [g1];
    assert [g1][..0] == [];
    assert FromPairs([g1]) == [g1];
    assert Put([g1], g2) == [g1, g2];
    assert FromPairs([g1, g2]) == [g1, g2];
    assert Put([g1, g2], g3) == [g3, g2];
  }

  // ---------------------------------------------------------------------------
  // The schema manager's explicit grouping loop
  // ---------------------------------------------------------------------------

  /** Index of key `k` in an ordered dictionary, if present. */
  function IndexOf<R>(d: seq<Group<R>>, k: string): (r: Option<nat>)
    ensures r.Some? ==> r.value < |d| && d[r.value].key == k
    ensures r.None? ==> k !in Keys(d)
    decreases |d|
  {
    if d == [] then None
    else if d[0].key == k then Some(0)
    else match IndexOf(d[1..], k) case None => None case Some(i) => Some(i + 1)
  }

  /** What the grouping loop has built after the records `rs`. */
  ghost predicate FirstSeenInv<R>(d: seq<Group<R>>, rs: seq<R>, key: R -> string) {
    && DistinctKeys(d)
    && Keys(d) == Dedup(KeyList(rs, key))
    && forall i :: 0 <= i < |d| ==> d[i].members == Filter(rs, key, d[i].key)
  }

  lemma FirstSeenNewKey<R>(d: seq<Group<R>>, rs: seq<R>, x: R, key: R -> string)
    requires FirstSeenInv(d, rs, key)
    requires key(x) !in Keys(d)
    ensures FirstSeenInv(d + [Group(key(x), [x])], rs + [x], key)
  {
    NewKeyKeys(d, rs, x, key);
    NewKeyMembers(d, rs, x, key);
  }

  lemma NewKeyKeys<R>(d: seq<Group<R>>, rs: seq<R>, x: R, key: R -> string)
    requires FirstSeenInv(d, rs, key)
    requires key(x) !in Keys(d)
    ensures var d' := d + [Group(key(x), [x])];
      DistinctKeys(d') && Keys(d') == Dedup(KeyList(rs + [x], key))
  {
    var k := key(x);
    var d' := d + [Group(k, [x])];
    KeyListSnoc(rs, x, key);
    DedupSnocNew(KeyList(rs, key), k);
    KeysSnoc(d, Group(k, [x]));
    forall i, j | 0 <= i < j < |d'| ensures d'[i].key != d'[j].key {
      assert Keys(d)[i] == d[i].key;
      if j < |d| {
        assert d'[i] == d[i] && d'[j] == d[j];
      }
    }
  }

  lemma KeysSnoc<R>(d: seq<Group<R>>, g: Group<R>)
    ensures Keys(d + [g]) == Keys(d) + [g.key]
  {
    var d' := d + [g];
    assert forall i :: 0 <= i < |d'| ==> Keys(d')[i] == (Keys(d) + [g.key])[i];
  }

  /** A key not seen before goes to the end of the first-seen key order. */
  lemma DedupSnocNew(ks: seq<string>, k: string)
    requires k !in Dedup(ks)
    ensures Dedup(ks + [k]) == Dedup(ks) + [k]
  {
    assert (ks + [k])[..|ks|] == ks;
  }

  lemma NewKeyMembers<R>(d: seq<Group<R>>, rs: seq<R>, x: R, key: R -> string)
    requires FirstSeenInv(d, rs, key)
    requires key(x) !in Keys(d)
    ensures var d' := d + [Group(key(x), [x])];
      forall i :: 0 <= i < |d'| ==> d'[i].members == Filter(rs + [x], key, d'[i].key)
  {
    var k := key(x);
    var d' := d + [Group(k, [x])];
    forall y | y in rs ensures key(y) != k {
      var j :| 0 <= j < |rs| && rs[j] == y;
      assert KeyList(rs, key)[j] == key(y);
    }
    FilterNone(rs, key, k);
    forall i | 0 <= i < |d'| ensures d'[i].members == Filter(rs + [x], key, d'[i].key) {
      FilterSnoc(rs, x, key, d'[i].key);
      if i < |d| {
        assert d'[i] == d[i];
        assert Keys(d)[i] == d[i].key;
        assert Filter(rs, key, d[i].key) + [] == Filter(rs, key, d[i].key);
      } else {
        assert [] + [x] == [x];
      }
    }
  }

  lemma FirstSeenOldKey<R>(d: seq<Group<R>>, rs: seq<R>, x: R, key: R -> string, p: nat)
    requires FirstSeenInv(d, rs, key)
    requires p < |d| && d[p].key == key(x)
    ensures FirstSeenInv(d[p := Group(key(x), d[p].members + [x])], rs + [x], key)
  {
    OldKeyKeys(d, rs, x, key, p);
    OldKeyMembers(d, rs, x, key, p);
  }

  lemma OldKeyKeys<R>(d: seq<Group<R>>, rs: seq<R>, x: R, key: R -> string, p: nat)
    requires FirstSeenInv(d, rs, key)
    requires p < |d| && d[p].key == key(x)
    ensures var d' := d[p := Group(key(x), d[p].members + [x])];
      DistinctKeys(d') && Keys(d') == Dedup(KeyList(rs + [x], key))
  {
    var k := key(x);
    KeysUpdate(d, p, Group(k, d[p].members + [x]));
    KeyListSnoc(rs, x, key);
    assert k in Dedup(KeyList(rs, key)) by { assert Keys(d)[p] == k; }
    DedupSnocOld(KeyList(rs, key), k);
  }

  /** Replacing a group by one with the same key changes no key. */
  lemma KeysUpdate<R>(d: seq<Group<R>>, p: nat, g: Group<R>)
    requires p < |d| && g.key == d[p].key
    ensures Keys(d[p := g]) == Keys(d)
    ensures DistinctKeys(d) ==> DistinctKeys(d[p := g])
  {
    var d' := d[p := g];
    assert forall i :: 0 <= i < |d'| ==> d'[i].key == d[i].key;
    assert forall i :: 0 <= i < |d'| ==> Keys(d')[i] == Keys(d)[i];
  }

  lemma KeyListSnoc<R>(rs: seq<R>, x: R, key: R -> string)
    ensures KeyList(rs + [x], key) == KeyList(rs, key) + [key(x)]
  {
    assert (rs + [x])[..|rs|] == rs;
  }

  /** A key seen before adds nothing to the first-seen key order. */
  lemma DedupSnocOld(ks: seq<string>, k: string)
    requires k in Dedup(ks)
    ensures Dedup(ks + [k]) == Dedup(ks)
  {
    assert (ks + [k])[..|ks|] == ks;
  }

  lemma OldKeyMembers<R>(d: seq<Group<R>>, rs: seq<R>, x: R, key: R -> string, p: nat)
    requires FirstSeenInv(d, rs, key)
    requires p < |d| && d[p].key == key(x)
    ensures var d' := d[p := Group(key(x), d[p].members + [x])];
      forall i :: 0 <= i < |d'| ==> d'[i].members == Filter(rs + [x], key, d'[i].key)
  {
    var k := key(x);
    var d' := d[p := Group(k, d[p].members + [x])];
    var rs' := rs + [x];
    assert rs'[..|rs'| - 1] == rs;
    forall i | 0 <= i < |d'| ensures d'[i].members == Filter(rs', key, d'[i].key) {
      assert Filter(rs', key, d'[i].key) == Filter(rs, key, d'[i].key) + (if k == d'[i].key then [x] else []);
      if i != p {
        assert d'[i] == d[i];
        assert d[i].key != k;
      }
    }
  }


  /**
   * `groups = {}; for r in records: groups.setdefault(key(r), []).append(r)`,
   * written out as the code does: one group per key in first-seen order, each
   * holding every record with that key.
   */
  method GroupFirstSeen<R>(rs: seq<R>, key: R -> string) returns (d: seq<Group<R>>)
    ensures DistinctKeys(d)
    ensures Keys(d) == Dedup(KeyList(rs, key))
    ensures forall i :: 0 <= i < |d| ==> d[i].members == Filter(rs, key, d[i].key)
    ensures d == FirstSeen(rs, key)
  {
    d := [];
    for n := 0 to |rs|
      invariant FirstSeenInv(d, rs[..n], key)
    {
      var k := key(rs[n]);
      match IndexOf(d, k) {
        case None =>
          FirstSeenNewAt(d, rs, n, key);
          d := d + [Group(k, [rs[n]])];
        case Some(p) =>
          FirstSeenOldAt(d, rs, n, key, p);
          d := d[p := Group(k, d[p].members + [rs[n]])];
      }
    }
    assert rs[..|rs|] == rs;
    FirstSeenInvIs(d, rs, key);
  }

  lemma FirstSeenNewAt<R>(d: seq<Group<R>>, rs: seq<R>, n: nat, key: R -> string)
    requires n < |rs| && FirstSeenInv(d, rs[..n], key)
    requires key(rs[n]) !in Keys(d)
    ensures FirstSeenInv(d + [Group(key(rs[n]), [rs[n]])], rs[..n + 1], key)
  {
    assert rs[..n + 1] == rs[..n] + [rs[n]];
    FirstSeenNewKey(d, rs[..n], rs[n], key);
  }

  lemma FirstSeenOldAt<R>(d: seq<Group<R>>, rs: seq<R>, n: nat, key: R -> string, p: nat)
    requires n < |rs| && FirstSeenInv(d, rs[..n], key)
    requires p < |d| && d[p].key == key(rs[n])
    ensures FirstSeenInv(d[p := Group(key(rs[n]), d[p].members + [rs[n]])], rs[..n + 1], key)
  {
    assert rs[..n + 1] == rs[..n] + [rs[n]];
    FirstSeenOldKey(d, rs[..n], rs[n], key, p);
  }

  /** The loop's invariant pins its dictionary down: it is the first-seen grouping. */
  lemma FirstSeenInvIs<R>(d: seq<Group<R>>, rs: seq<R>, key: R -> string)
    requires FirstSeenInv(d, rs, key)
    ensures d == FirstSeen(rs, key)
  {
    forall i | 0 <= i < |d| ensures d[i] == FirstSeen(rs, key)[i] {
      assert Keys(d)[i] == d[i].key;
    }
  }

  /** The groups the grouping loop builds, as a function: one per key in first-seen order, with its records. */
  function GroupsFor<R>(ks: seq<string>, rs: seq<R>, key: R -> string): (r: seq<Group<R>>)
    ensures |r| == |ks|
    ensures forall i :: 0 <= i < |ks| ==> r[i] == Group(ks[i], Filter(rs, key, ks[i]))
    decreases |ks|
  {
    if ks == [] then [] else GroupsFor(ks[..|ks| - 1], rs, key) + [Group(ks[|ks| - 1], Filter(rs, key, ks[|ks| - 1]))]
  }

  function FirstSeen<R>(rs: seq<R>, key: R -> string): seq<Group<R>> {
    GroupsFor(Dedup(KeyList(rs, key)), rs, key)
  }

  lemma {:induction false} FlattenSnoc<R>(gs: seq<Group<R>>, g: Group<R>)
    ensures Flatten(gs + [g]) == Flatten(gs) + g.members
    decreases |gs|
  {
    if gs == [] {
      assert [g][1..] == [];
      assert Flatten([g]) == g.members + Flatten([]);
    } else {
      assert (gs + [g])[1..] == gs[1..] + [g];
      FlattenSnoc(gs[1..], g);
    }
  }

  /** The records whose key is one of `ks`, in record order. */
  function InKeys<R>(rs: seq<R>, key: R -> string, ks: seq<string>): seq<R>
    decreases |rs|
  {
    if rs == [] then []
    else InKeys(rs[..|rs| - 1], key, ks) + (if key(rs[|rs| - 1]) in ks then [rs[|rs| - 1]] else [])
  }

  lemma {:induction false} InKeysSnocKey<R>(rs: seq<R>, key: R -> string, ks: seq<string>, k: string)
    requires k !in ks
    ensures multiset(InKeys(rs, key, ks + [k])) == multiset(InKeys(rs, key, ks)) + multiset(Filter(rs, key, k))
    decreases |rs|
  {
    if rs != [] {
      InKeysSnocKey(rs[..|rs| - 1], key, ks, k);
    }
  }

  lemma {:induction false} InKeysEmpty<R>(rs: seq<R>, key: R -> string)
    ensures InKeys(rs, key, []) == []
    decreases |rs|
  {
    if rs != [] {
      InKeysEmpty(rs[..|rs| - 1], key);
    }
  }

  lemma {:induction false} InKeysAll<R>(rs: seq<R>, key: R -> string, ks: seq<string>)
    requires forall i :: 0 <= i < |rs| ==> key(rs[i]) in ks
    ensures InKeys(rs, key, ks) == rs
    decreases |rs|
  {
    if rs != [] {
      var init := rs[..|rs| - 1];
      assert forall i :: 0 <= i < |init| ==> init[i] == rs[i];
      InKeysAll(init, key, ks);
      assert init + [rs[|rs| - 1]] == rs;
    }
  }

  lemma {:induction false} FlattenGroupsFor<R>(ks: seq<string>, rs: seq<R>, key: R -> string)
    requires forall i, j :: 0 <= i < j < |ks| ==> ks[i] != ks[j]
    ensures multiset(Flatten(GroupsFor(ks, rs, key))) == multiset(InKeys(rs, key, ks))
    decreases |ks|
  {
    if ks == [] {
      InKeysEmpty(rs, key);
    } else {
      var init, k := ks[..|ks| - 1], ks[|ks| - 1];
      assert init + [k] == ks;
      assert k !in init by {
        forall i | 0 <= i < |init| ensures init[i] != k { assert init[i] == ks[i]; }
      }
      FlattenGroupsFor(init, rs, key);
      FlattenSnoc(GroupsFor(init, rs, key), Group(k, Filter(rs, key, k)));
      InKeysSnocKey(rs, key, init, k);
    }
  }

  /** The first-seen grouping loses no record and duplicates none. */
  lemma FirstSeenPermutes<R>(rs: seq<R>, key: R -> string)
    ensures multiset(Flatten(FirstSeen(rs, key))) == multiset(rs)
  {
    var ks := Dedup(KeyList(rs, key));
    FlattenGroupsFor(ks, rs, key);
    forall i | 0 <= i < |rs| ensures key(rs[i]) in ks {
      assert KeyList(rs, key)[i] == key(rs[i]);
    }
    InKeysAll(rs, key, ks);
  }

  /** In a sequence of groups with distinct keys, every group occurs once. */
  lemma DistinctOnce<R>(gs: seq<Group<R>>, a: nat)
    requires forall i, j :: 0 <= i < j < |gs| ==> gs[i].key != gs[j].key
    requires a < |gs|
    ensures multiset(gs)[gs[a]] == 1
  {
    assert gs == gs[..a] + [gs[a]] + gs[a + 1..];
    var front, back := gs[..a], gs[a + 1..];
    assert gs[a] !in front by {
      forall m | 0 <= m < |front| ensures front[m] != gs[a] { assert front[m] == gs[m]; }
    }
    assert gs[a] !in back by {
      forall m | 0 <= m < |back| ensures back[m] != gs[a] { assert back[m] == gs[a + 1 + m]; }
    }
  }

  /** What a grouping of `rs` by `key` is: distinct keys, each group every record of its key, every record's key present. */
  ghost predicate GroupingOf<R>(gs: seq<Group<R>>, rs: seq<R>, key: R -> string) {
    && DistinctKeys(gs)
    && (forall m :: 0 <= m < |gs| ==> gs[m].members == Filter(rs, key, gs[m].key) && gs[m].key in KeyList(rs, key))
    && (forall j :: 0 <= j < |rs| ==> key(rs[j]) in Keys(gs))
  }

  lemma FirstSeenIsGrouping<R>(rs: seq<R>, key: R -> string)
    ensures GroupingOf(FirstSeen(rs, key), rs, key)
  {
    var kl := KeyList(rs, key);
    var ks := Dedup(kl);
    var gs := FirstSeen(rs, key);
    assert Keys(gs) == ks by {
      forall m | 0 <= m < |gs| ensures Keys(gs)[m] == ks[m] { assert gs[m].key == ks[m]; }
    }
    forall m | 0 <= m < |gs| ensures gs[m].members == Filter(rs, key, gs[m].key) && gs[m].key in kl {
      assert gs[m] == Group(ks[m], Filter(rs, key, ks[m]));
      assert ks[m] in ks;
    }
    forall i, j | 0 <= i < j < |gs| ensures gs[i].key != gs[j].key {
      assert gs[i].key == ks[i] && gs[j].key == ks[j];
    }
    forall j | 0 <= j < |rs| ensures key(rs[j]) in Keys(gs) {
      assert kl[j] == key(rs[j]);
      assert key(rs[j]) in ks;
    }
  }

  /** A group of a grouping that a test keeps: its key occurs, and it holds every record with that key. */
  lemma GroupingWhereAt<R>(gs: seq<Group<R>>, rs: seq<R>, key: R -> string, p: Group<R> -> bool, i: nat)
    requires GroupingOf(gs, rs, key)
    requires i < |Where(gs, p)|
    ensures var g := Where(gs, p)[i];
      && g.members == Filter(rs, key, g.key) && p(g) && g.key in KeyList(rs, key)
  {
    var w := Where(gs, p);
    assert w[i] in multiset(gs) by { assert w[i] in multiset(w); }
    var m :| 0 <= m < |gs| && gs[m] == w[i];
  }

  lemma MultisetTwice<T>(w: seq<T>, i: nat, j: nat)
    requires i < j < |w| && w[i] == w[j]
    ensures multiset(w)[w[i]] >= 2
  {
    assert w == w[..i] + [w[i]] + w[i + 1..j] + [w[j]] + w[j + 1..];
  }

  /** The kept groups of a sequence of groups with distinct keys have distinct keys. */
  lemma WhereDistinctKeys<R>(gs: seq<Group<R>>, p: Group<R> -> bool, i: nat, j: nat)
    requires DistinctKeys(gs)
    requires i < j < |Where(gs, p)|
    ensures Where(gs, p)[i].key != Where(gs, p)[j].key
  {
    var w := Where(gs, p);
    assert w[i] in multiset(gs) by { assert w[i] in multiset(w); }
    assert w[j] in multiset(gs) by { assert w[j] in multiset(w); }
    var a :| 0 <= a < |gs| && gs[a] == w[i];
    var b :| 0 <= b < |gs| && gs[b] == w[j];
    if a == b {
      MultisetTwice(w, i, j);
      assert multiset(gs)[gs[a]] >= 2 by { assert multiset(w) <= multiset(gs); }
      DistinctOnce(gs, a);
      assert false;
    }
  }

  /** Every record's group is in a grouping, and among the kept groups when it passes the test. */
  lemma GroupingWhereHas<R>(gs: seq<Group<R>>, rs: seq<R>, key: R -> string, p: Group<R> -> bool, x: R)
    requires GroupingOf(gs, rs, key)
    requires x in rs && p(Group(key(x), Filter(rs, key, key(x))))
    ensures exists i :: 0 <= i < |Where(gs, p)| && Where(gs, p)[i] == Group(key(x), Filter(rs, key, key(x)))
  {
    var j :| 0 <= j < |rs| && rs[j] == x;
    assert key(x) in Keys(gs);
    var m :| 0 <= m < |gs| && Keys(gs)[m] == key(x);
    assert gs[m] == Group(key(x), Filter(rs, key, key(x)));
    WhereKeeps(gs, p, m);
    var w := Where(gs, p);
    var i :| 0 <= i < |w| && w[i] == gs[m];
  }

  lemma FlattenPrefix<R>(gs: seq<Group<R>>, i: nat)
    requires i < |gs|
    ensures Flatten(gs[..i + 1]) == Flatten(gs[..i]) + gs[i].members
  {
    assert gs[..i + 1] == gs[..i] + [gs[i]];
    FlattenSnoc(gs[..i], gs[i]);
  }

  lemma FilterKeys<R>(rs: seq<R>, key: R -> string, k: string)
    ensures forall j :: 0 <= j < |Filter(rs, key, k)| ==> key(Filter(rs, key, k)[j]) == k
  {
    var f := Filter(rs, key, k);
    forall j | 0 <= j < |f| ensures key(f[j]) == k { assert f[j] in f; }
  }

  // ---------------------------------------------------------------------------
  // Filtering keeps records contiguous
  // ---------------------------------------------------------------------------

  /** A contiguous `[x] + t` has a contiguous tail, which starts with `x`'s key if that key recurs. */
  lemma ContiguousTail<R>(x: R, t: seq<R>, key: R -> string)
    requires Contiguous([x] + t, key)
    ensures Contiguous(t, key)
    ensures forall k :: 0 <= k < |t| && key(t[k]) == key(x) ==> key(t[0]) == key(x)
  {
    var s := [x] + t;
    assert forall i :: 0 <= i < |t| ==> s[i + 1] == t[i];
    forall i, j, k | 0 <= i < j < k < |t| && key(t[i]) == key(t[k]) ensures key(t[j]) == key(t[i]) {
      assert key(s[i + 1]) == key(s[k + 1]);
    }
    forall k | 0 <= k < |t| && key(t[k]) == key(x) ensures key(t[0]) == key(x) {
      if k > 0 {
        assert key(s[0]) == key(s[k + 1]);
      }
    }
  }

  /** `[x] + t` is contiguous when `t` is and, if `x`'s key recurs in `t`, `t` starts with it. */
  lemma ContiguousBuild<R>(x: R, t: seq<R>, key: R -> string)
    requires Contiguous(t, key)
    requires forall k :: 0 <= k < |t| && key(t[k]) == key(x) ==> key(t[0]) == key(x)
    ensures Contiguous([x] + t, key)
  {
    var s := [x] + t;
    assert forall i :: 0 <= i < |t| ==> s[i + 1] == t[i];
    forall i, j, k | 0 <= i < j < k < |s| && key(s[i]) == key(s[k]) ensures key(s[j]) == key(s[i]) {
      if i == 0 {
        assert key(t[k - 1]) == key(x);
        if j > 1 {
          assert key(t[0]) == key(t[k - 1]);
        }
      } else {
        assert key(t[i - 1]) == key(t[k - 1]);
      }
    }
  }

  /** The first record a filter keeps comes no later than any record it keeps. */
  lemma {:induction false} WhereHead<R>(t: seq<R>, p: R -> bool, j: nat)
    requires j < |t| && p(t[j])
    ensures Where(t, p) != []
    ensures exists f :: 0 <= f <= j && Where(t, p)[0] == t[f]
    decreases |t|
  {
    if !p(t[0]) {
      WhereHead(t[1..], p, j - 1);
      var f :| 0 <= f <= j - 1 && Where(t[1..], p)[0] == t[1..][f];
      assert t[1..][f] == t[f + 1];
    }
  }

  /** Filtering contiguous records leaves them contiguous. */
  lemma {:induction false} WhereContiguous<R>(s: seq<R>, p: R -> bool, key: R -> string)
    requires Contiguous(s, key)
    ensures Contiguous(Where(s, p), key)
    decreases |s|
  {
    if s != [] {
      var x, t := s[0], s[1..];
      assert s == [x] + t;
      ContiguousTail(x, t, key);
      WhereContiguous(t, p, key);
      var w := Where(t, p);
      if p(x) {
        assert Where(s, p) == [x] + w;
        forall k | 0 <= k < |w| && key(w[k]) == key(x) ensures key(w[0]) == key(x) {
          WhereFirstKey(s, p, key, k);
        }
        ContiguousBuild(x, w, key);
      }
    }
  }

  /** Among contiguous records, a kept tail record with the head's key makes the first kept one share it. */
  lemma WhereFirstKey<R>(s: seq<R>, p: R -> bool, key: R -> string, k: nat)
    requires Contiguous(s, key) && s != []
    requires k < |Where(s[1..], p)| && key(Where(s[1..], p)[k]) == key(s[0])
    ensures key(Where(s[1..], p)[0]) == key(s[0])
  {
    var t := s[1..];
    var w := Where(t, p);
    WhereFrom(t, p, k);
    var j :| 0 <= j < |t| && t[j] == w[k];
    WhereHead(t, p, j);
    var f :| 0 <= f <= j && w[0] == t[f];
    if f < j {
      ContiguousBetween(s, key, 0, f + 1, j + 1);
    }
  }

  /** Every kept record comes from the input. */
  lemma {:induction false} WhereFrom<T>(t: seq<T>, p: T -> bool, k: nat)
    requires k < |Where(t, p)|
    ensures exists j :: 0 <= j < |t| && t[j] == Where(t, p)[k]
    decreases |t|
  {
    if p(t[0]) && k == 0 {
      assert t[0] == Where(t, p)[0];
    } else {
      var k' := if p(t[0]) then k - 1 else k;
      assert Where(t, p)[k] == Where(t[1..], p)[k'];
      WhereFrom(t[1..], p, k');
      var j :| 0 <= j < |t[1..]| && t[1..][j] == Where(t[1..], p)[k'];
      assert t[j + 1] == t[1..][j];
    }
  }

  lemma ContiguousBetween<R>(s: seq<R>, key: R -> string, i: nat, j: nat, k: nat)
    requires Contiguous(s, key)
    requires i < j < k < |s| && key(s[i]) == key(s[k])
    ensures key(s[j]) == key(s[i])
  {
  }

  /** On contiguous records the groups have distinct keys, and every record's group holds exactly the records with its key. */
  lemma GroupsOfAll<R>(rs: seq<R>, key: R -> string)
    requires Contiguous(rs, key)
    ensures DistinctKeys(GroupBy(rs, key))
    ensures forall x :: x in rs ==>
      exists g :: 0 <= g < |GroupBy(rs, key)| && GroupBy(rs, key)[g] == Group(key(x), Filter(rs, key, key(x)))
  {
    GroupByContiguous(rs, key);
    forall x | x in rs
      ensures exists g :: 0 <= g < |GroupBy(rs, key)| && GroupBy(rs, key)[g] == Group(key(x), Filter(rs, key, key(x)))
    {
      GroupOf(rs, key, x);
    }
  }

  lemma GroupOf<R>(rs: seq<R>, key: R -> string, x: R)
    requires Contiguous(rs, key) && x in rs
    ensures exists g :: 0 <= g < |GroupBy(rs, key)| && GroupBy(rs, key)[g] == Group(key(x), Filter(rs, key, key(x)))
  {
    var gs := GroupBy(rs, key);
    var k := key(x);
    GroupByContiguous(rs, key);
    var i :| 0 <= i < |rs| && rs[i] == x;
    var kl := KeyList(rs, key);
    assert kl[i] == k;
    assert k in kl;
    var ks := Keys(gs);
    assert k in ks;
    var g :| 0 <= g < |ks| && ks[g] == k;
    assert gs[g].members == Filter(rs, key, gs[g].key);
    assert gs[g] == Group(k, Filter(rs, key, k));
  }

  /** Every record with key `k` is among the records `Filter` keeps for `k`. */
  lemma {:induction false} FilterHas<R>(rs: seq<R>, key: R -> string, x: R)
    requires x in rs
    ensures x in Filter(rs, key, key(x))
    decreases |rs|
  {
    if rs[|rs| - 1] != x {
      assert rs == rs[..|rs| - 1] + [rs[|rs| - 1]];
      FilterHas(rs[..|rs| - 1], key, x);
    }
  }

  /** On contiguous records each group is named after one of the records and holds exactly the records with its key. */
  lemma GroupWitness<R>(rs: seq<R>, key: R -> string, i: nat)
    requires Contiguous(rs, key) && i < |GroupBy(rs, key)|
    ensures exists j :: 0 <= j < |rs| && key(rs[j]) == GroupBy(rs, key)[i].key
    ensures GroupBy(rs, key)[i].members == Filter(rs, key, GroupBy(rs, key)[i].key)
  {
    var gs := GroupBy(rs, key);
    GroupByContiguous(rs, key);
    assert gs[i].key in Keys(gs) by { assert Keys(gs)[i] == gs[i].key; }
    var kl := KeyList(rs, key);
    assert gs[i].key in kl;
    var j :| 0 <= j < |kl| && kl[j] == gs[i].key;
  }

  /** Two contiguous runs of records that share no key stay contiguous one after the other. */
  lemma ContiguousConcat<R>(a: seq<R>, b: seq<R>, key: R -> string)
    requires Contiguous(a, key) && Contiguous(b, key)
    requires forall x, y :: x in a && y in b ==> key(x) != key(y)
    ensures Contiguous(a + b, key)
  {
    var s := a + b;
    forall i, j, k | 0 <= i < j < k < |s| && key(s[i]) == key(s[k]) ensures key(s[j]) == key(s[i]) {
      if k < |a| {
        assert s[i] == a[i] && s[j] == a[j] && s[k] == a[k];
      } else if i >= |a| {
        assert s[i] == b[i - |a|] && s[j] == b[j - |a|] && s[k] == b[k - |a|];
      }
    }
  }

  /** Records that all share one key form one run. */
  lemma {:induction false} RunsSingleKey<R>(rs: seq<R>, key: R -> string, k: string)
    requires forall i :: 0 <= i < |rs| ==> key(rs[i]) == k
    ensures Runs(rs, key) == if rs == [] then [] else [Group(k, rs)]
    decreases |rs|
  {
    if rs != [] {
      RunsSingleKey(rs[1..], key, k);
      assert key(rs[0]) == k;
      assert [rs[0]] + rs[1..] == rs;
      if rs[1..] == [] {
        assert rs == [rs[0]];
      }
    }
  }

  /** Grouping records that all share one key `k` maps `k` to all of them, in order. */
  lemma GroupBySingleKey<R>(rs: seq<R>, key: R -> string, k: string)
    requires forall i :: 0 <= i < |rs| ==> key(rs[i]) == k
    ensures Lookup(GroupBy(rs, key), k) == if rs == [] then None else Some(rs)
  {
    RunsSingleKey(rs, key, k);
    if rs != [] {
      assert FromPairs([Group(k, rs)]) == Put([], Group(k, rs));
    }
  }
}
