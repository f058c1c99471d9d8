/**
 * What the load templates do to the vault, as functions over relations held
 * as sequences of rows: INSERT_HUB / INSERT_LINK (insert a key when it is
 * absent), INSERT_SAT_NEW (insert a version when it differs from the latest
 * one), INSERT_SAT_DELETE (soft-delete keys missing from a full extract) and
 * CREATE_CURRENT_VIEW (the latest version of every key). Hashes are opaque
 * strings; `load_dts` is an integer.
 */
module LoadSemantics {
  import opened Common
  import opened Ordering

  /** Keep the first occurrence of every element (`SELECT DISTINCT`). */
  function Distinct<T(==)>(s: seq<T>): (r: seq<T>)
    ensures forall i :: 0 <= i < |r| ==> r[i] in s
    ensures forall i :: 0 <= i < |s| ==> s[i] in r
    ensures forall i, j :: 0 <= i < j < |r| ==> r[i] != r[j]
    decreases |s|
  {
    if s == [] then []
    else
      var t := Distinct(s[..|s| - 1]);
      var x := s[|s| - 1];
      assert forall i :: 0 <= i < |s| - 1 ==> s[..|s| - 1][i] == s[i];
      if x in t then t else t + [x]
  }

  // ---------------------------------------------------------------------------
  // Hubs and links: INSERT_HUB, INSERT_LINK
  // ---------------------------------------------------------------------------

  /** A hash-view row projected onto a hub's or link's hash key and its other columns. */
  datatype KeyRow = KeyRow(hk: string, values: seq<Value>)

  /** A hub or link row: hash key, load date, record source, run id, the other columns. */
  datatype VaultRow = VaultRow(hk: string, loadDts: int, recordSource: string, runId: int, values: seq<Value>)

  function VaultKeys(rows: seq<VaultRow>): (ks: set<string>)
    ensures forall i :: 0 <= i < |rows| ==> rows[i].hk in ks
    ensures forall k :: k in ks ==> exists i :: 0 <= i < |rows| && rows[i].hk == k
    decreases |rows|
  {
    if rows == [] then {}
    else
      var ks := VaultKeys(rows[..|rows| - 1]);
      assert forall i :: 0 <= i < |rows| - 1 ==> rows[..|rows| - 1][i] == rows[i];
      ks + {rows[|rows| - 1].hk}
  }

  function AbsentFrom(target: seq<VaultRow>): KeyRow -> bool {
    (v: KeyRow) => v.hk !in VaultKeys(target)
  }

  function ToVault(rows: seq<KeyRow>, loadDts: int, recordSource: string, runId: int): (r: seq<VaultRow>)
    ensures |r| == |rows|
    ensures forall i :: 0 <= i < |rows| ==>
      r[i] == VaultRow(rows[i].hk, loadDts, recordSource, runId, rows[i].values)
    decreases |rows|
  {
    if rows == [] then []
    else ToVault(rows[..|rows| - 1], loadDts, recordSource, runId)
         + [VaultRow(rows[|rows| - 1].hk, loadDts, recordSource, runId, rows[|rows| - 1].values)]
  }

  /** The rows INSERT_HUB / INSERT_LINK select: distinct view rows whose key the target lacks. */
  function NewKeyRows(target: seq<VaultRow>, view: seq<KeyRow>): seq<KeyRow> {
    Distinct(Where(view, AbsentFrom(target)))
  }

  /** No two rows share a hash key: what the `NOT NULL PRIMARY KEY` on the hash key demands. */
  predicate KeysUnique(rows: seq<KeyRow>) {
    forall i, j :: 0 <= i < j < |rows| ==> rows[i].hk != rows[j].hk
  }

  predicate VaultKeysUnique(rows: seq<VaultRow>) {
    forall i, j :: 0 <= i < j < |rows| ==> rows[i].hk != rows[j].hk
  }

  /**
   * The primary key rejects the load: two different view rows carry the same
   * hash key, which the target lacks. `DISTINCT` keeps both (their business
   * keys differ, for example in letter case), so both would be inserted.
   */
  predicate KeyClash(target: seq<VaultRow>, view: seq<KeyRow>) {
    exists i, j :: 0 <= i < |view| && 0 <= j < |view| &&
      view[i] != view[j] && view[i].hk == view[j].hk && view[i].hk !in VaultKeys(target)
  }

  /**
   * INSERT_HUB / INSERT_LINK: the target plus one row per distinct new view
   * row. When two of those rows share a hash key the statement violates the
   * primary key and fails as a whole, so the target stays as it was.
   */
  function InsertKeys(target: seq<VaultRow>, view: seq<KeyRow>, loadDts: int, recordSource: string, runId: int)
    : seq<VaultRow>
  {
    var rows := NewKeyRows(target, view);
    if KeysUnique(rows) then target + ToVault(rows, loadDts, recordSource, runId) else target
  }

  /** The selected rows clash on a hash key exactly when the view has a key clash. */
  lemma KeyClashExactly(target: seq<VaultRow>, view: seq<KeyRow>)
    ensures !KeysUnique(NewKeyRows(target, view)) <==> KeyClash(target, view)
  {
    if !KeysUnique(NewKeyRows(target, view)) {
      RowsClashGivesKeyClash(target, view);
    }
    if KeyClash(target, view) {
      KeyClashGivesRowsClash(target, view);
    }
  }

  lemma RowsClashGivesKeyClash(target: seq<VaultRow>, view: seq<KeyRow>)
    requires !KeysUnique(NewKeyRows(target, view))
    ensures KeyClash(target, view)
  {
    var rows := NewKeyRows(target, view);
    var w := Where(view, AbsentFrom(target));
    var a, b :| 0 <= a < b < |rows| && rows[a].hk == rows[b].hk;
    NewKeyRowsFresh(target, view);
    assert rows[a] in multiset(view) by { assert rows[a] in w; assert rows[a] in multiset(w); }
    assert rows[b] in multiset(view) by { assert rows[b] in w; assert rows[b] in multiset(w); }
    var i :| 0 <= i < |view| && view[i] == rows[a];
    var j :| 0 <= j < |view| && view[j] == rows[b];
    assert view[i] != view[j];
  }

  lemma KeyClashGivesRowsClash(target: seq<VaultRow>, view: seq<KeyRow>)
    requires KeyClash(target, view)
    ensures !KeysUnique(NewKeyRows(target, view))
  {
    var rows := NewKeyRows(target, view);
    var i, j :| 0 <= i < |view| && 0 <= j < |view| &&
      view[i] != view[j] && view[i].hk == view[j].hk && view[i].hk !in VaultKeys(target);
    WhereKeeps(view, AbsentFrom(target), i);
    WhereKeeps(view, AbsentFrom(target), j);
    var a :| 0 <= a < |rows| && rows[a] == view[i];
    var b :| 0 <= b < |rows| && rows[b] == view[j];
    if a < b { assert !KeysUnique(rows); } else { assert rows[b].hk == rows[a].hk; }
  }

  function ViewKeys(view: seq<KeyRow>): set<string> {
    set i | 0 <= i < |view| :: view[i].hk
  }

  /**
   * The hub/link load is insert-only and inserts only keys that were absent and
   * are in the view. Without a key clash every view key is present afterwards;
   * with one the statement fails and the target is unchanged.
   */
  lemma InsertKeysCorrect(target: seq<VaultRow>, view: seq<KeyRow>, loadDts: int, recordSource: string, runId: int)
    ensures var r := InsertKeys(target, view, loadDts, recordSource, runId);
      && r[..|target|] == target
      && (forall i :: |target| <= i < |r| ==>
            r[i].hk !in VaultKeys(target) && r[i].hk in ViewKeys(view)
            && r[i].loadDts == loadDts && r[i].runId == runId)
      && (!KeyClash(target, view) ==> VaultKeys(r) == VaultKeys(target) + ViewKeys(view))
      && (KeyClash(target, view) ==> r == target)
  {
    KeyClashExactly(target, view);
    NewKeyRowsFresh(target, view);
    var newRows := NewKeyRows(target, view);
    var r := InsertKeys(target, view, loadDts, recordSource, runId);
    forall i | |target| <= i < |r|
      ensures r[i].hk !in VaultKeys(target) && r[i].hk in ViewKeys(view)
    {
      assert r[i].hk == newRows[i - |target|].hk;
    }
    if !KeyClash(target, view) {
      InsertKeysCover(target, view, loadDts, recordSource, runId);
      forall k | k in VaultKeys(r) ensures k in VaultKeys(target) + ViewKeys(view) {
        var m :| 0 <= m < |r| && r[m].hk == k;
        if m < |target| { assert target[m].hk == k; }
      }
    }
  }

  /** Every selected row is a view row whose key the target lacks. */
  lemma NewKeyRowsFresh(target: seq<VaultRow>, view: seq<KeyRow>)
    ensures forall i :: 0 <= i < |NewKeyRows(target, view)| ==>
      NewKeyRows(target, view)[i].hk !in VaultKeys(target) && NewKeyRows(target, view)[i].hk in ViewKeys(view)
  {
    var newRows := NewKeyRows(target, view);
    var w := Where(view, AbsentFrom(target));
    forall i | 0 <= i < |newRows|
      ensures newRows[i].hk !in VaultKeys(target) && newRows[i].hk in ViewKeys(view)
    {
      var x := newRows[i];
      assert x in w;
      var j :| 0 <= j < |w| && w[j] == x;
      assert AbsentFrom(target)(w[j]);
      assert x in multiset(view) by { assert x in multiset(w); }
      var k :| 0 <= k < |view| && view[k] == x;
    }
  }

  /** The load keeps the hash key a primary key: a target without repeated keys gets none. */
  lemma InsertKeysKeepsPrimaryKey(target: seq<VaultRow>, view: seq<KeyRow>, loadDts: int, recordSource: string, runId: int)
    requires VaultKeysUnique(target)
    ensures VaultKeysUnique(InsertKeys(target, view, loadDts, recordSource, runId))
  {
    var rows := NewKeyRows(target, view);
    var r := InsertKeys(target, view, loadDts, recordSource, runId);
    if KeysUnique(rows) {
      NewKeyRowsFresh(target, view);
      forall i, j | 0 <= i < j < |r| ensures r[i].hk != r[j].hk {
        if j >= |target| {
          assert r[j].hk == rows[j - |target|].hk;
          if i >= |target| {
            assert r[i].hk == rows[i - |target|].hk;
          } else {
            assert r[i].hk == target[i].hk;
          }
        }
      }
    }
  }

  /** Without a key clash every view key is present after the insert. */
  lemma InsertKeysCover(target: seq<VaultRow>, view: seq<KeyRow>, loadDts: int, recordSource: string, runId: int)
    ensures !KeyClash(target, view) ==>
      ViewKeys(view) <= VaultKeys(InsertKeys(target, view, loadDts, recordSource, runId))
  {
    var r := InsertKeys(target, view, loadDts, recordSource, runId);
    if !KeyClash(target, view) {
      forall k | k in ViewKeys(view) ensures k in VaultKeys(r) {
        var j :| 0 <= j < |view| && view[j].hk == k;
        if k !in VaultKeys(target) {
          AbsentKeyInserted(target, view, loadDts, recordSource, runId, j);
        } else {
          var m :| 0 <= m < |target| && target[m].hk == k;
          assert r[m].hk == k;
        }
      }
    }
  }

  /**
   * A view key the target lacks is among the inserted rows, unless the view
   * has a key clash, in which case the insert fails and the key stays absent.
   */
  lemma AbsentKeyInserted(target: seq<VaultRow>, view: seq<KeyRow>, loadDts: int, recordSource: string, runId: int,
                          j: nat)
    requires j < |view| && view[j].hk !in VaultKeys(target)
    ensures view[j].hk in VaultKeys(InsertKeys(target, view, loadDts, recordSource, runId)) <==> !KeyClash(target, view)
  {
    KeyClashExactly(target, view);
    var newRows := NewKeyRows(target, view);
    var r := InsertKeys(target, view, loadDts, recordSource, runId);
    if KeysUnique(newRows) {
      WhereKeeps(view, AbsentFrom(target), j);
      var x := view[j];
      assert x in newRows;
      var m :| 0 <= m < |newRows| && newRows[m] == x;
      assert r[|target| + m].hk == x.hk;
    }
  }

  /** No element is kept when none satisfies the filter. */
  lemma {:induction false} WhereEmpty<T>(s: seq<T>, p: T -> bool)
    requires forall i :: 0 <= i < |s| ==> !p(s[i])
    ensures Where(s, p) == []
    decreases |s|
  {
    if s != [] {
      assert forall i :: 0 <= i < |s[1..]| ==> s[1..][i] == s[i + 1];
      WhereEmpty(s[1..], p);
    }
  }

  /**
   * Re-running a hub/link load against the same view inserts nothing, whatever
   * its load date and run id; this holds too when both runs fail on a key clash.
   */
  lemma InsertKeysIdempotent(target: seq<VaultRow>, view: seq<KeyRow>,
                             loadDts: int, recordSource: string, runId: int,
                             loadDts': int, recordSource': string, runId': int)
    ensures var once := InsertKeys(target, view, loadDts, recordSource, runId);
      InsertKeys(once, view, loadDts', recordSource', runId') == once
  {
    var once := InsertKeys(target, view, loadDts, recordSource, runId);
    InsertKeysCorrect(target, view, loadDts, recordSource, runId);
    if KeysUnique(NewKeyRows(target, view)) {
      forall i | 0 <= i < |view| ensures !AbsentFrom(once)(view[i]) {
        assert view[i].hk in ViewKeys(view);
        KeyClashExactly(target, view);
      }
      WhereEmpty(view, AbsentFrom(once));
      assert once + [] == once;
    }
  }

  // ---------------------------------------------------------------------------
  // Satellites: INSERT_SAT_NEW, INSERT_SAT_DELETE, CREATE_CURRENT_VIEW
  // ---------------------------------------------------------------------------

  datatype SatRow = SatRow(hk: string, loadDts: int, delFlag: bool, hashDiff: string,
                           recordSource: string, runId: int, attrs: seq<Value>)

  /** A hash-view row projected onto a satellite: parent key, hash diff, payload. */
  datatype SatSource = SatSource(hk: string, hashDiff: string, attrs: seq<Value>)

  /**
   * The latest version of a key: the row with the greatest `load_dts`. Equal
   * `load_dts` are resolved towards the row inserted last.
   */
  function Latest(sat: seq<SatRow>, hk: string): (r: Option<SatRow>)
    ensures r.Some? ==> r.value in sat && r.value.hk == hk
    ensures r.Some? ==> forall i :: 0 <= i < |sat| && sat[i].hk == hk ==> sat[i].loadDts <= r.value.loadDts
    ensures r.None? <==> forall i :: 0 <= i < |sat| ==> sat[i].hk != hk
    decreases |sat|
  {
    if sat == [] then None
    else
      var init := sat[..|sat| - 1];
      var l := Latest(init, hk);
      var x := sat[|sat| - 1];
      assert forall i :: 0 <= i < |init| ==> init[i] == sat[i];
      if x.hk == hk && (l.None? || l.value.loadDts <= x.loadDts) then Some(x) else l
  }

  /** A key's latest version is live and carries this hash diff: INSERT_SAT_NEW's `NOT EXISTS` holds for it. */
  predicate Unchanged(sat: seq<SatRow>, v: SatSource) {
    var l := Latest(sat, v.hk);
    l.Some? && l.value.hashDiff == v.hashDiff && !l.value.delFlag
  }

  function ChangedIn(sat: seq<SatRow>): SatSource -> bool {
    (v: SatSource) => !Unchanged(sat, v)
  }

  function ToSat(rows: seq<SatSource>, loadDts: int, recordSource: string, runId: int): (r: seq<SatRow>)
    ensures |r| == |rows|
    ensures forall i :: 0 <= i < |rows| ==>
      r[i] == SatRow(rows[i].hk, loadDts, false, rows[i].hashDiff, recordSource, runId, rows[i].attrs)
    decreases |rows|
  {
    if rows == [] then []
    else ToSat(rows[..|rows| - 1], loadDts, recordSource, runId)
         + [SatRow(rows[|rows| - 1].hk, loadDts, false, rows[|rows| - 1].hashDiff, recordSource, runId, rows[|rows| - 1].attrs)]
  }

  function NewVersions(sat: seq<SatRow>, view: seq<SatSource>): seq<SatSource> {
    Distinct(Where(view, ChangedIn(sat)))
  }

  /** INSERT_SAT_NEW: the satellite plus a live version for every distinct view row that differs from its key's latest. */
  function InsertSatNew(sat: seq<SatRow>, view: seq<SatSource>, loadDts: int, recordSource: string, runId: int)
    : seq<SatRow>
  {
    sat + ToSat(NewVersions(sat, view), loadDts, recordSource, runId)
  }

  /**
   * A view row gets a new version iff its key's latest version is not a live
   * one with the same hash diff. So a reverted value, or a key whose latest
   * version is a deletion, is inserted again.
   */
  lemma InsertSatNewChoice(sat: seq<SatRow>, view: seq<SatSource>, loadDts: int, recordSource: string, runId: int,
                           v: SatSource)
    requires v in view
    ensures var r := InsertSatNew(sat, view, loadDts, recordSource, runId);
      (SatRow(v.hk, loadDts, false, v.hashDiff, recordSource, runId, v.attrs) in r[|sat|..]) <==> !Unchanged(sat, v)
    ensures InsertSatNew(sat, view, loadDts, recordSource, runId)[..|sat|] == sat
  {
    var r := InsertSatNew(sat, view, loadDts, recordSource, runId);
    var newRows := NewVersions(sat, view);
    var added := ToSat(newRows, loadDts, recordSource, runId);
    assert r[|sat|..] == added;
    assert r[..|sat|] == sat;
    var row := SatRow(v.hk, loadDts, false, v.hashDiff, recordSource, runId, v.attrs);
    if !Unchanged(sat, v) {
      var j :| 0 <= j < |view| && view[j] == v;
      WhereKeeps(view, ChangedIn(sat), j);
      var m :| 0 <= m < |newRows| && newRows[m] == v;
      assert added[m] == row;
    }
    if row in added {
      var m :| 0 <= m < |added| && added[m] == row;
      assert newRows[m] == v;
      var w := Where(view, ChangedIn(sat));
      assert v in w;
      var j :| 0 <= j < |w| && w[j] == v;
      assert ChangedIn(sat)(w[j]);
    }
  }

  /** Every key of the view carries one hash diff (the hash view is a function of the key). */
  predicate DiffFunctional(view: seq<SatSource>) {
    forall i, j :: 0 <= i < |view| && 0 <= j < |view| && view[i].hk == view[j].hk ==> view[i].hashDiff == view[j].hashDiff
  }

  /** Every existing version is older than `loadDts`. */
  predicate OlderThan(sat: seq<SatRow>, loadDts: int) {
    forall i :: 0 <= i < |sat| ==> sat[i].loadDts < loadDts
  }

  /** Appending rows that share one load date, newer than everything before: a key's latest is among them. */
  lemma {:induction false} LatestAfterAppend(sat: seq<SatRow>, added: seq<SatRow>, hk: string, loadDts: int)
    requires OlderThan(sat, loadDts)
    requires forall i :: 0 <= i < |added| ==> added[i].loadDts == loadDts
    requires exists i :: 0 <= i < |added| && added[i].hk == hk
    ensures Latest(sat + added, hk).Some?
    ensures Latest(sat + added, hk).value in added
    decreases |added|
  {
    var all := sat + added;
    var n := |added| - 1;
    var x := added[n];
    assert all[..|all| - 1] == sat + added[..n];
    if exists i :: 0 <= i < n && added[i].hk == hk {
      LatestAfterAppend(sat, added[..n], hk, loadDts);
      var l := Latest(sat + added[..n], hk);
      assert l.value in added[..n];
      if x.hk == hk {
        assert l.value.loadDts == loadDts;
      }
    } else {
      assert x.hk == hk;
      var pre := sat + added[..n];
      assert forall j :: |sat| <= j < |pre| ==> pre[j] == added[j - |sat|];
      var l := Latest(pre, hk);
      if l.Some? {
        var k :| 0 <= k < |pre| && pre[k] == l.value;
        assert k < |sat|;
        assert sat[k].loadDts < loadDts;
      }
    }
  }

  /** Every new version comes from a view row that differs from its key's latest. */
  lemma NewVersionFromView(sat: seq<SatRow>, view: seq<SatSource>, m: nat)
    requires m < |NewVersions(sat, view)|
    ensures NewVersions(sat, view)[m] in view && !Unchanged(sat, NewVersions(sat, view)[m])
  {
    var w := Where(view, ChangedIn(sat));
    var v := NewVersions(sat, view)[m];
    assert v in w;
    var j :| 0 <= j < |w| && w[j] == v;
    assert ChangedIn(sat)(w[j]);
    assert v in multiset(view) by { assert v in multiset(w); }
  }

  /** After the delta load every view row is unchanged with respect to the satellite. */
  lemma UnchangedAfterNew(sat: seq<SatRow>, view: seq<SatSource>, loadDts: int, recordSource: string, runId: int,
                          v: SatSource)
    requires DiffFunctional(view)
    requires OlderThan(sat, loadDts)
    requires v in view
    ensures Unchanged(InsertSatNew(sat, view, loadDts, recordSource, runId), v)
  {
    var once := InsertSatNew(sat, view, loadDts, recordSource, runId);
    var newRows := NewVersions(sat, view);
    var added := ToSat(newRows, loadDts, recordSource, runId);
    assert once == sat + added;
    if exists m :: 0 <= m < |added| && added[m].hk == v.hk {
      LatestAfterAppend(sat, added, v.hk, loadDts);
      var l := Latest(once, v.hk).value;
      var m :| 0 <= m < |added| && added[m] == l;
      NewVersionFromView(sat, view, m);
      var j :| 0 <= j < |view| && view[j] == newRows[m];
      var i :| 0 <= i < |view| && view[i] == v;
      assert l.hashDiff == view[j].hashDiff;
      assert view[j].hk == view[i].hk;
    } else {
      // nothing was added for this key, so it was unchanged already
      InsertSatNewChoice(sat, view, loadDts, recordSource, runId, v);
      var row := SatRow(v.hk, loadDts, false, v.hashDiff, recordSource, runId, v.attrs);
      assert once[|sat|..] == added;
      assert row !in added;
      LatestUnaffected(sat, added, v.hk);
    }
  }

  /**
   * Re-running the delta load with the same view and a later load date inserts
   * nothing: every key's latest version now carries the view's hash diff.
   */
  lemma InsertSatNewIdempotent(sat: seq<SatRow>, view: seq<SatSource>, loadDts: int, recordSource: string, runId: int,
                               loadDts': int, recordSource': string, runId': int)
    requires DiffFunctional(view)
    requires OlderThan(sat, loadDts)
    ensures var once := InsertSatNew(sat, view, loadDts, recordSource, runId);
      InsertSatNew(once, view, loadDts', recordSource', runId') == once
  {
    var once := InsertSatNew(sat, view, loadDts, recordSource, runId);
    forall i | 0 <= i < |view| ensures !ChangedIn(once)(view[i]) {
      UnchangedAfterNew(sat, view, loadDts, recordSource, runId, view[i]);
    }
    WhereEmpty(view, ChangedIn(once));
    assert once + [] == once;
  }

  /** Appending rows of other keys leaves a key's latest version alone. */
  lemma {:induction false} LatestUnaffected(sat: seq<SatRow>, added: seq<SatRow>, hk: string)
    requires forall i :: 0 <= i < |added| ==> added[i].hk != hk
    ensures Latest(sat + added, hk) == Latest(sat, hk)
    decreases |added|
  {
    if added == [] {
      assert sat + added == sat;
    } else {
      var n := |added| - 1;
      assert (sat + added)[..|sat + added| - 1] == sat + added[..n];
      LatestUnaffected(sat, added[..n], hk);
    }
  }

  /** The distinct keys of a satellite, in first-seen order. */
  function SatKeys(sat: seq<SatRow>): (ks: seq<string>)
    ensures forall k :: k in ks <==> exists i :: 0 <= i < |sat| && sat[i].hk == k
    ensures forall i, j :: 0 <= i < j < |ks| ==> ks[i] != ks[j]
  {
    Dedup(HkList(sat))
  }

  function HkList(sat: seq<SatRow>): (ks: seq<string>)
    ensures |ks| == |sat| && forall i :: 0 <= i < |sat| ==> ks[i] == sat[i].hk
    decreases |sat|
  {
    if sat == [] then [] else HkList(sat[..|sat| - 1]) + [sat[|sat| - 1].hk]
  }

  function SourceKeys(view: seq<SatSource>): set<string> {
    set i | 0 <= i < |view| :: view[i].hk
  }

  /** A key INSERT_SAT_DELETE closes: its latest version is live and the full extract no longer has it. */
  predicate Vanished(sat: seq<SatRow>, view: seq<SatSource>, hk: string) {
    var l := Latest(sat, hk);
    l.Some? && !l.value.delFlag && hk !in SourceKeys(view)
  }

  /** The deletion row that closes a key: its latest hash diff and payload, flagged deleted. */
  function Tombstone(l: SatRow, loadDts: int, recordSource: string, runId: int): SatRow {
    SatRow(l.hk, loadDts, true, l.hashDiff, recordSource, runId, l.attrs)
  }

  /** The keys among `keys` that INSERT_SAT_DELETE closes, in order. */
  function ClosedKeys(sat: seq<SatRow>, keys: seq<string>, view: seq<SatSource>): (ks: seq<string>)
    ensures forall i :: 0 <= i < |ks| ==> ks[i] in keys && Vanished(sat, view, ks[i])
    ensures forall k :: k in keys && Vanished(sat, view, k) ==> k in ks
    decreases |keys|
  {
    if keys == [] then []
    else
      var init := keys[..|keys| - 1];
      var k := keys[|keys| - 1];
      assert forall x :: x in init ==> x in keys;
      if Vanished(sat, view, k) then ClosedKeys(sat, init, view) + [k] else ClosedKeys(sat, init, view)
  }

  /** Closing distinct keys closes each of them once. */
  lemma {:induction false} ClosedKeysUnique(sat: seq<SatRow>, keys: seq<string>, view: seq<SatSource>)
    requires forall i, j :: 0 <= i < j < |keys| ==> keys[i] != keys[j]
    ensures forall i, j :: 0 <= i < j < |ClosedKeys(sat, keys, view)| ==>
      ClosedKeys(sat, keys, view)[i] != ClosedKeys(sat, keys, view)[j]
    decreases |keys|
  {
    if keys != [] {
      var init := keys[..|keys| - 1];
      var k := keys[|keys| - 1];
      assert forall i :: 0 <= i < |init| ==> init[i] == keys[i];
      ClosedKeysUnique(sat, init, view);
      var c := ClosedKeys(sat, init, view);
      assert k !in init;
      assert forall i :: 0 <= i < |c| ==> c[i] != k;
      if Vanished(sat, view, k) {
        var ks := c + [k];
        assert ClosedKeys(sat, keys, view) == ks;
        forall i, j | 0 <= i < j < |ks| ensures ks[i] != ks[j] {
          assert ks[i] == c[i];
          if j < |c| {
            assert ks[j] == c[j];
          } else {
            assert ks[j] == k;
            assert c[i] != k;
          }
        }
      } else {
        assert ClosedKeys(sat, keys, view) == c;
      }
    }
  }

  /** Nothing is closed when no key is vanished. */
  lemma {:induction false} ClosedKeysNone(sat: seq<SatRow>, keys: seq<string>, view: seq<SatSource>)
    requires forall k :: k in keys ==> !Vanished(sat, view, k)
    ensures ClosedKeys(sat, keys, view) == []
    decreases |keys|
  {
    if keys != [] {
      var init := keys[..|keys| - 1];
      assert forall k :: k in init ==> k in keys;
      ClosedKeysNone(sat, init, view);
    }
  }

  function TombstoneRows(sat: seq<SatRow>, ks: seq<string>, loadDts: int, recordSource: string, runId: int)
    : (r: seq<SatRow>)
    requires forall i :: 0 <= i < |ks| ==> Latest(sat, ks[i]).Some?
    ensures |r| == |ks|
    ensures forall i :: 0 <= i < |ks| ==>
      r[i] == Tombstone(Latest(sat, ks[i]).value, loadDts, recordSource, runId) && r[i].hk == ks[i]
    decreases |ks|
  {
    if ks == [] then []
    else TombstoneRows(sat, ks[..|ks| - 1], loadDts, recordSource, runId)
         + [Tombstone(Latest(sat, ks[|ks| - 1]).value, loadDts, recordSource, runId)]
  }

  function Tombstones(sat: seq<SatRow>, view: seq<SatSource>, loadDts: int, recordSource: string, runId: int)
    : seq<SatRow>
  {
    TombstoneRows(sat, ClosedKeys(sat, SatKeys(sat), view), loadDts, recordSource, runId)
  }

  /**
   * INSERT_SAT_DELETE: for every key whose latest version is live and that the
   * full extract lacks, one deletion row carrying the latest hash diff and payload.
   */
  function InsertSatDelete(sat: seq<SatRow>, view: seq<SatSource>, loadDts: int, recordSource: string, runId: int)
    : seq<SatRow>
  {
    sat + Tombstones(sat, view, loadDts, recordSource, runId)
  }

  /** The soft delete is insert-only and every row it adds closes a vanished key with its latest hash diff and payload. */
  lemma InsertSatDeleteRows(sat: seq<SatRow>, view: seq<SatSource>, loadDts: int, recordSource: string, runId: int)
    ensures var r := InsertSatDelete(sat, view, loadDts, recordSource, runId);
      && r[..|sat|] == sat
      && (forall i :: |sat| <= i < |r| ==> r[i].delFlag && r[i].loadDts == loadDts && Vanished(sat, view, r[i].hk))
      && (forall i :: |sat| <= i < |r| ==>
            r[i].hashDiff == Latest(sat, r[i].hk).value.hashDiff && r[i].attrs == Latest(sat, r[i].hk).value.attrs)
  {
    var ks := ClosedKeys(sat, SatKeys(sat), view);
    var t := Tombstones(sat, view, loadDts, recordSource, runId);
    var r := sat + t;
    assert r[..|sat|] == sat;
    assert forall i :: |sat| <= i < |r| ==> r[i] == t[i - |sat|] && t[i - |sat|].hk == ks[i - |sat|];
  }

  /** The soft delete adds a row for every vanished key. */
  lemma InsertSatDeleteCovers(sat: seq<SatRow>, view: seq<SatSource>, loadDts: int, recordSource: string, runId: int)
    ensures var r := InsertSatDelete(sat, view, loadDts, recordSource, runId);
      forall k :: Vanished(sat, view, k) ==> exists i :: |sat| <= i < |r| && r[i].hk == k
  {
    var ks := ClosedKeys(sat, SatKeys(sat), view);
    var t := Tombstones(sat, view, loadDts, recordSource, runId);
    var r := sat + t;
    assert r == InsertSatDelete(sat, view, loadDts, recordSource, runId);
    forall k | Vanished(sat, view, k) ensures exists i :: |sat| <= i < |r| && r[i].hk == k {
      var l := Latest(sat, k).value;
      var m :| 0 <= m < |sat| && sat[m] == l;
      assert k in SatKeys(sat);
      var i :| 0 <= i < |ks| && ks[i] == k;
      assert r[|sat| + i] == t[i];
    }
  }

  /** The soft delete adds at most one row per key. */
  lemma InsertSatDeleteUnique(sat: seq<SatRow>, view: seq<SatSource>, loadDts: int, recordSource: string, runId: int)
    ensures forall i, j :: 0 <= i < j < |Tombstones(sat, view, loadDts, recordSource, runId)| ==>
      Tombstones(sat, view, loadDts, recordSource, runId)[i].hk != Tombstones(sat, view, loadDts, recordSource, runId)[j].hk
  {
    var ks := ClosedKeys(sat, SatKeys(sat), view);
    var t := Tombstones(sat, view, loadDts, recordSource, runId);
    ClosedKeysUnique(sat, SatKeys(sat), view);
    assert forall i :: 0 <= i < |t| ==> t[i].hk == ks[i];
  }

  /** A key the soft delete closes ends on its tombstone. */
  lemma ClosedKeyDeleted(sat: seq<SatRow>, view: seq<SatSource>, loadDts: int, recordSource: string, runId: int,
                         k: string)
    requires OlderThan(sat, loadDts)
    requires k in ClosedKeys(sat, SatKeys(sat), view)
    ensures Latest(InsertSatDelete(sat, view, loadDts, recordSource, runId), k).Some?
    ensures Latest(InsertSatDelete(sat, view, loadDts, recordSource, runId), k).value.delFlag
  {
    var ks := ClosedKeys(sat, SatKeys(sat), view);
    var t := Tombstones(sat, view, loadDts, recordSource, runId);
    assert InsertSatDelete(sat, view, loadDts, recordSource, runId) == sat + t;
    var m :| 0 <= m < |ks| && ks[m] == k;
    assert t[m].hk == k;
    LatestAfterAppend(sat, t, k, loadDts);
    var l := Latest(sat + t, k).value;
    var n :| 0 <= n < |t| && t[n] == l;
  }

  /** After the soft delete no key of the satellite is vanished any more. */
  lemma ClosedAfterDelete(sat: seq<SatRow>, view: seq<SatSource>, loadDts: int, recordSource: string, runId: int,
                          k: string)
    requires OlderThan(sat, loadDts)
    ensures !Vanished(InsertSatDelete(sat, view, loadDts, recordSource, runId), view, k)
  {
    var once := InsertSatDelete(sat, view, loadDts, recordSource, runId);
    var ks := ClosedKeys(sat, SatKeys(sat), view);
    var t := Tombstones(sat, view, loadDts, recordSource, runId);
    assert once == sat + t;
    if k in ks {
      ClosedKeyDeleted(sat, view, loadDts, recordSource, runId, k);
    } else {
      // the key was not closed, so it was not vanished before either
      assert forall i :: 0 <= i < |t| ==> t[i].hk == ks[i];
      LatestUnaffected(sat, t, k);
      if Latest(sat, k).Some? {
        var m :| 0 <= m < |sat| && sat[m] == Latest(sat, k).value;
        assert k in SatKeys(sat);
      }
    }
  }

  /**
   * No double delete: a second soft delete with the key still absent, at a
   * later load date, appends nothing, because every closed key's latest
   * version is now its deletion row.
   */
  lemma InsertSatDeleteIdempotent(sat: seq<SatRow>, view: seq<SatSource>, loadDts: int, recordSource: string, runId: int,
                                  loadDts': int, recordSource': string, runId': int)
    requires OlderThan(sat, loadDts)
    ensures var once := InsertSatDelete(sat, view, loadDts, recordSource, runId);
      InsertSatDelete(once, view, loadDts', recordSource', runId') == once
  {
    var once := InsertSatDelete(sat, view, loadDts, recordSource, runId);
    forall k | k in SatKeys(once) ensures !Vanished(once, view, k) {
      ClosedAfterDelete(sat, view, loadDts, recordSource, runId, k);
    }
    ClosedKeysNone(once, SatKeys(once), view);
    assert once + [] == once;
  }

  /** CREATE_CURRENT_VIEW: the latest version of every key, deleted or not. */
  function CurrentRows(sat: seq<SatRow>, keys: seq<string>): (r: seq<SatRow>)
    requires forall k :: k in keys ==> exists i :: 0 <= i < |sat| && sat[i].hk == k
    ensures |r| == |keys|
    ensures forall i :: 0 <= i < |keys| ==> Latest(sat, keys[i]) == Some(r[i]) && r[i].hk == keys[i]
    decreases |keys|
  {
    if keys == [] then []
    else
      var k := keys[|keys| - 1];
      var init := keys[..|keys| - 1];
      assert forall j :: 0 <= j < |init| ==> init[j] == keys[j];
      assert forall x :: x in init ==> x in keys;
      assert k in keys;
      CurrentRows(sat, init) + [Latest(sat, k).value]
  }

  function CurrentView(sat: seq<SatRow>): seq<SatRow> {
    CurrentRows(sat, SatKeys(sat))
  }

  /**
   * The current view has exactly one row per hash key of the satellite, and
   * that row has the greatest `load_dts` of its key, whatever its `del_flag`.
   */
  lemma CurrentViewCorrect(sat: seq<SatRow>)
    ensures var cv := CurrentView(sat);
      && (forall i, j :: 0 <= i < j < |cv| ==> cv[i].hk != cv[j].hk)
      && (forall i :: 0 <= i < |sat| ==> exists j :: 0 <= j < |cv| && cv[j].hk == sat[i].hk)
      && (forall j :: 0 <= j < |cv| ==> cv[j] in sat)
      && (forall i, j :: 0 <= i < |sat| && 0 <= j < |cv| && sat[i].hk == cv[j].hk ==> sat[i].loadDts <= cv[j].loadDts)
  {
    CurrentViewKeys(sat);
    CurrentViewLatest(sat);
    var cv := CurrentView(sat);
    assert forall i :: 0 <= i < |sat| ==> exists j :: 0 <= j < |cv| && cv[j].hk == sat[i].hk;
  }

  /** One current row per key, and one for every key of the satellite. */
  lemma CurrentViewKeys(sat: seq<SatRow>)
    ensures var cv := CurrentView(sat);
      && (forall i, j :: 0 <= i < j < |cv| ==> cv[i].hk != cv[j].hk)
      && (forall i :: 0 <= i < |sat| ==> exists j :: 0 <= j < |cv| && cv[j].hk == sat[i].hk)
  {
    var ks := SatKeys(sat);
    var cv := CurrentView(sat);
    assert |cv| == |ks|;
    forall i, j | 0 <= i < j < |cv| ensures cv[i].hk != cv[j].hk {
      assert cv[i].hk == ks[i] && cv[j].hk == ks[j];
    }
    forall i | 0 <= i < |sat| ensures exists j :: 0 <= j < |cv| && cv[j].hk == sat[i].hk {
      assert sat[i].hk in ks;
      var j :| 0 <= j < |ks| && ks[j] == sat[i].hk;
      assert cv[j].hk == ks[j];
    }
  }

  /** Each current row is a satellite row, and none of its key is later. */
  lemma CurrentViewLatest(sat: seq<SatRow>)
    ensures var cv := CurrentView(sat);
      && (forall j :: 0 <= j < |cv| ==> cv[j] in sat)
      && (forall i, j :: 0 <= i < |sat| && 0 <= j < |cv| && sat[i].hk == cv[j].hk ==> sat[i].loadDts <= cv[j].loadDts)
  {
    var ks := SatKeys(sat);
    var cv := CurrentView(sat);
    assert |cv| == |ks|;
    forall j | 0 <= j < |cv| ensures cv[j] in sat {
      assert Latest(sat, ks[j]) == Some(cv[j]);
    }
    forall i, j | 0 <= i < |sat| && 0 <= j < |cv| && sat[i].hk == cv[j].hk
      ensures sat[i].loadDts <= cv[j].loadDts
    {
      assert Latest(sat, ks[j]) == Some(cv[j]);
    }
  }

  /** A filter every element passes keeps the whole sequence. */
  lemma {:induction false} WhereAll<T>(s: seq<T>, p: T -> bool)
    requires forall i :: 0 <= i < |s| ==> p(s[i])
    ensures Where(s, p) == s
    decreases |s|
  {
    if s != [] {
      assert forall i :: 0 <= i < |s[1..]| ==> s[1..][i] == s[i + 1];
      WhereAll(s[1..], p);
    }
  }

  /** `DISTINCT` changes nothing in a sequence without repeats. */
  lemma {:induction false} DistinctUnique<T>(s: seq<T>)
    requires forall i, j :: 0 <= i < j < |s| ==> s[i] != s[j]
    ensures Distinct(s) == s
    decreases |s|
  {
    if s != [] {
      var init := s[..|s| - 1];
      DistinctUnique(init);
      assert s[|s| - 1] !in init;
      assert init + [s[|s| - 1]] == s;
    }
  }

  lemma {:induction false} DedupUnique(s: seq<string>)
    requires forall i, j :: 0 <= i < j < |s| ==> s[i] != s[j]
    ensures Dedup(s) == s
    decreases |s|
  {
    if s != [] {
      var init := s[..|s| - 1];
      DedupUnique(init);
      assert s[|s| - 1] !in init;
      assert init + [s[|s| - 1]] == s;
    }
  }

  /**
   * Loading a view without repeated rows into an empty hub or link gives one
   * row per view row when no two rows share a hash key, and nothing otherwise.
   */
  lemma IntoEmptyHub(view: seq<KeyRow>, loadDts: int, recordSource: string, runId: int)
    requires forall i, j :: 0 <= i < j < |view| ==> view[i] != view[j]
    ensures KeysUnique(view) ==> InsertKeys([], view, loadDts, recordSource, runId) == ToVault(view, loadDts, recordSource, runId)
    ensures !KeysUnique(view) ==> InsertKeys([], view, loadDts, recordSource, runId) == []
  {
    var empty: seq<VaultRow> := [];
    assert VaultKeys(empty) == {};
    assert forall i :: 0 <= i < |view| ==> AbsentFrom(empty)(view[i]);
    WhereAll(view, AbsentFrom(empty));
    DistinctUnique(view);
    assert NewKeyRows(empty, view) == view;
    var v := ToVault(view, loadDts, recordSource, runId);
    assert empty + v == v;
  }

  /** Loading a view without repeated rows into an empty satellite gives one version per view row. */
  lemma IntoEmptySat(view: seq<SatSource>, loadDts: int, recordSource: string, runId: int)
    requires forall i, j :: 0 <= i < j < |view| ==> view[i] != view[j]
    ensures InsertSatNew([], view, loadDts, recordSource, runId) == ToSat(view, loadDts, recordSource, runId)
  {
    forall i | 0 <= i < |view| ensures ChangedIn([])(view[i]) {
      assert Latest([], view[i].hk).None?;
    }
    WhereAll(view, ChangedIn([]));
    DistinctUnique(view);
  }

  /** When no key repeats, the current view has as many rows as the satellite. */
  lemma CurrentViewUniqueKeys(sat: seq<SatRow>)
    requires forall i, j :: 0 <= i < j < |sat| ==> sat[i].hk != sat[j].hk
    ensures |CurrentView(sat)| == |sat|
  {
    DedupUnique(HkList(sat));
  }

  /** Two customers loaded into an empty hub give two hub rows. */
  lemma TwoCustomersHub()
    ensures |InsertKeys([], [KeyRow("h1", [VStr("c1")]), KeyRow("h2", [VStr("c2")])], 1, "demo", 1)| == 2
  {
    IntoEmptyHub([KeyRow("h1", [VStr("c1")]), KeyRow("h2", [VStr("c2")])], 1, "demo", 1);
  }

  /** Two customers loaded into an empty satellite give two versions and two current-view rows. */
  lemma TwoCustomersSat()
    ensures var sat := InsertSatNew([], [SatSource("h1", "d1", [VStr("Ann")]), SatSource("h2", "d2", [VStr("Bob")])], 1, "demo", 1);
      |sat| == 2 && |CurrentView(sat)| == 2
  {
    var src := [SatSource("h1", "d1", [VStr("Ann")]), SatSource("h2", "d2", [VStr("Bob")])];
    IntoEmptySat(src, 1, "demo", 1);
    var sat := ToSat(src, 1, "demo", 1);
    assert sat[0].hk == "h1" && sat[1].hk == "h2";
    CurrentViewUniqueKeys(sat);
  }
}
