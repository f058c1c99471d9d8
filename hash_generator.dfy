/**
 * The hash view generator: the `sha1(upper(concat_ws(...)))` expression, the
 * pass-through fields of the view's CTE, and the list of hash columns (one
 * hash key per hub group, one per link group, one hash diff per satellite
 * group), built by loops over the grouped transitions.
 */
module HashGenerator {
  import opened Common
  import opened Ordering
  import opened Grouping
  import opened Metadata
  import opened Statements
  import opened Engine
  import opened MetadataManager

  // ---------------------------------------------------------------------------
  // hash_fields and what the expression computes
  // ---------------------------------------------------------------------------

  function Coalesce(field: string): string {
    "coalesce(" + field + "::string,'')"
  }

  function CoalesceAll(fields: seq<string>): (r: seq<string>)
    ensures |r| == |fields|
    ensures forall i :: 0 <= i < |fields| ==> r[i] == Coalesce(fields[i])
    decreases |fields|
  {
    if fields == [] then [] else CoalesceAll(fields[..|fields| - 1]) + [Coalesce(fields[|fields| - 1])]
  }

  /** `hash_fields(name, fields)`: the SQL expression of one hash column. */
  function HashFields(name: string, fields: seq<string>): string {
    "sha1(upper(concat_ws('||'," + Join(",", CoalesceAll(fields)) + "))) as " + name
  }

  /** The text `coalesce(f::string,'')` gives for one value: a NULL becomes empty. */
  function Text(v: Option<string>): string {
    if v.Some? then v.value else ""
  }

  function Texts(vs: seq<Option<string>>): (r: seq<string>)
    ensures |r| == |vs|
    ensures forall i :: 0 <= i < |vs| ==> r[i] == Text(vs[i])
    decreases |vs|
  {
    if vs == [] then [] else Texts(vs[..|vs| - 1]) + [Text(vs[|vs| - 1])]
  }

  /** The value of a `HashFields` column on a row whose fields hold `vs`; `sha1` is left uninterpreted. */
  function HashOf(sha1: string -> string, vs: seq<Option<string>>): string {
    sha1(Upper(Join("||", Texts(vs))))
  }

  function UpperAll(xs: seq<string>): (r: seq<string>)
    ensures |r| == |xs|
    ensures forall i :: 0 <= i < |xs| ==> r[i] == Upper(xs[i])
    decreases |xs|
  {
    if xs == [] then [] else [Upper(xs[0])] + UpperAll(xs[1..])
  }

  lemma {:induction false} UpperConcat(a: string, b: string)
    ensures Upper(a + b) == Upper(a) + Upper(b)
  {
    var l, r := Upper(a + b), Upper(a) + Upper(b);
    assert |l| == |r|;
    forall i | 0 <= i < |l| ensures l[i] == r[i] {
      if i < |a| { assert (a + b)[i] == a[i]; } else { assert (a + b)[i] == b[i - |a|]; }
    }
  }

  /** Upper-casing a joined list upper-cases each part; the `||` separator has no letters. */
  lemma {:induction false} UpperJoin(xs: seq<string>)
    ensures Upper(Join("||", xs)) == Join("||", UpperAll(xs))
    decreases |xs|
  {
    if |xs| > 1 {
      UpperJoin(xs[1..]);
      UpperConcat(xs[0], "||" + Join("||", xs[1..]));
      UpperConcat("||", Join("||", xs[1..]));
      assert Upper("||") == "||";
      assert UpperAll(xs) == [Upper(xs[0])] + UpperAll(xs[1..]);
    }
  }

  /**
   * The hash ignores letter case and does not tell NULL from the empty
   * string: rows whose values agree up to both give the same hash.
   */
  lemma HashOfCaseAndNullBlind(sha1: string -> string, xs: seq<Option<string>>, ys: seq<Option<string>>)
    requires |xs| == |ys|
    requires forall i :: 0 <= i < |xs| ==> Upper(Text(xs[i])) == Upper(Text(ys[i]))
    ensures HashOf(sha1, xs) == HashOf(sha1, ys)
  {
    UpperJoin(Texts(xs));
    UpperJoin(Texts(ys));
    assert UpperAll(Texts(xs)) == UpperAll(Texts(ys));
  }

  /**
   * The `||` separator is not escaped: moving a `||` from the end of one value to
   * the start of the next gives a different row with the same hash.
   */
  lemma HashOfSeparatorCollision(sha1: string -> string, a: string, b: string)
    ensures [Some(a + "||"), Some(b)] != [Some(a), Some("||" + b)]
    ensures HashOf(sha1, [Some(a + "||"), Some(b)]) == HashOf(sha1, [Some(a), Some("||" + b)])
  {
    assert Texts([Some(a + "||"), Some(b)]) == [a + "||", b];
    assert Texts([Some(a), Some("||" + b)]) == [a, "||" + b];
    assert Join("||", [a + "||", b]) == (a + "||") + "||" + b;
    assert Join("||", [a, "||" + b]) == a + "||" + ("||" + b);
    assert (a + "||") + "||" + b == a + "||" + ("||" + b);
    assert |a + "||"| != |a|;
    assert [Some(a + "||"), Some(b)][0] != [Some(a), Some("||" + b)][0];
  }

  // ---------------------------------------------------------------------------
  // The view's CTE fields
  // ---------------------------------------------------------------------------

  /** A non-raw field that is not a link reference or a satellite marker passes through the CTE. */
  predicate InCte(t: Transition) {
    !t.raw && t.transferType != "ll" && t.transferType != "sat_delta" && t.transferType != "sat_full"
  }

  /** The transformation with `#` standing for the field (`#` itself when there is none), aliased to the field. */
  function CteExpr(t: Transition): string {
    ReplaceChar(if Truthy(t.transformation) then t.transformation.value else "#", '#', t.sourceField)
      + " as " + t.sourceField
  }

  /** A raw field is the literal field name, aliased to the field. */
  function RawExpr(t: Transition): string {
    "'" + t.sourceField + "' as " + t.sourceField
  }

  function CteExprs(records: seq<Transition>): (r: seq<string>)
    ensures forall x :: x in r <==> exists t :: t in records && InCte(t) && x == CteExpr(t)
    decreases |records|
  {
    if records == [] then []
    else
      var init := records[..|records| - 1];
      var t := records[|records| - 1];
      assert records == init + [t];
      CteExprs(init) + (if InCte(t) then [CteExpr(t)] else [])
  }

  function RawExprs(records: seq<Transition>): (r: seq<string>)
    ensures forall x :: x in r <==> exists t :: t in records && t.raw && x == RawExpr(t)
    decreases |records|
  {
    if records == [] then []
    else
      var init := records[..|records| - 1];
      var t := records[|records| - 1];
      assert records == init + [t];
      RawExprs(init) + (if t.raw then [RawExpr(t)] else [])
  }

  /**
   * The CTE's select list: the distinct pass-through expressions, then one
   * literal per raw field. (The code dedups through a Python `set`, whose
   * iteration order is not specified; first-seen order stands for it.)
   */
  function CteFields(records: seq<Transition>): seq<string> {
    Dedup(CteExprs(records)) + RawExprs(records)
  }

  /** Without a transformation a field passes through under its own name. */
  lemma PlainCteExpr(t: Transition)
    requires !Truthy(t.transformation)
    ensures CteExpr(t) == t.sourceField + " as " + t.sourceField
  {
    assert ReplaceChar("#", '#', t.sourceField) == t.sourceField + ReplaceChar("", '#', t.sourceField);
  }

  /**
   * Every pass-through field appears exactly once and every raw field as a
   * literal; nothing else is in the CTE.
   */
  lemma CteFieldsCorrect(records: seq<Transition>)
    ensures forall t :: t in records && InCte(t) ==> CteExpr(t) in CteFields(records)
    ensures forall t :: t in records && t.raw ==> RawExpr(t) in CteFields(records)
    ensures forall x :: x in CteFields(records) ==>
      exists t :: t in records && ((InCte(t) && x == CteExpr(t)) || (t.raw && x == RawExpr(t)))
    ensures var d := Dedup(CteExprs(records));
      forall i, j :: 0 <= i < j < |d| ==> CteFields(records)[i] != CteFields(records)[j]
  {
    var d := Dedup(CteExprs(records));
    var c := CteFields(records);
    assert forall i :: 0 <= i < |d| ==> c[i] == d[i];
    forall x | x in c
      ensures exists t :: t in records && ((InCte(t) && x == CteExpr(t)) || (t.raw && x == RawExpr(t)))
    {
      if x !in d { assert x in RawExprs(records); }
    }
  }

  // ---------------------------------------------------------------------------
  // The hash columns
  // ---------------------------------------------------------------------------

  function IsBk(t: Transition): bool { t.transferType == "bk" }
  function IsLinkKey(t: Transition): bool { t.transferType == "ll" || t.transferType == "dk" }
  function IsSatField(t: Transition): bool { t.transferType == "f" }

  function IsBkFn(): Transition -> bool { (t: Transition) => IsBk(t) }
  function IsLinkKeyFn(): Transition -> bool { (t: Transition) => IsLinkKey(t) }
  function IsSatFieldFn(): Transition -> bool { (t: Transition) => IsSatField(t) }
  function GroupKeyFn(): Transition -> string { (t: Transition) => GroupKey(t) }

  /** `groupby([r for r in records if <type test>], ["group_name"])`. */
  function HubGroups(records: seq<Transition>): seq<Group<Transition>> {
    GroupBy(Where(records, IsBkFn()), GroupKeyFn())
  }

  function LinkGroups(records: seq<Transition>): seq<Group<Transition>> {
    GroupBy(Where(records, IsLinkKeyFn()), GroupKeyFn())
  }

  function SatGroups(records: seq<Transition>): seq<Group<Transition>> {
    GroupBy(Where(records, IsSatFieldFn()), GroupKeyFn())
  }

  function SourceFields(rs: seq<Transition>): (r: seq<string>)
    ensures |r| == |rs|
    ensures forall i :: 0 <= i < |rs| ==> r[i] == rs[i].sourceField
    decreases |rs|
  {
    if rs == [] then [] else SourceFields(rs[..|rs| - 1]) + [rs[|rs| - 1].sourceField]
  }

  /** A hash column: its name and the fields it hashes, in order. */
  datatype HashColumn = HashColumn(name: string, fields: seq<string>)

  function Render(cs: seq<HashColumn>): (r: seq<string>)
    ensures |r| == |cs|
    ensures forall i :: 0 <= i < |cs| ==> r[i] == HashFields(cs[i].name, cs[i].fields)
    decreases |cs|
  {
    if cs == [] then [] else Render(cs[..|cs| - 1]) + [HashFields(cs[|cs| - 1].name, cs[|cs| - 1].fields)]
  }

  /** One `<group>_hk` column per hub group, over the group's business-key fields. */
  function HubColumns(hubs: seq<Group<Transition>>): (r: seq<HashColumn>)
    ensures |r| == |hubs|
    ensures forall i :: 0 <= i < |hubs| ==> r[i] == HashColumn(hubs[i].key + "_hk", SourceFields(hubs[i].members))
    decreases |hubs|
  {
    if hubs == [] then []
    else HubColumns(hubs[..|hubs| - 1]) + [HashColumn(hubs[|hubs| - 1].key + "_hk", SourceFields(hubs[|hubs| - 1].members))]
  }

  /** One `<group>_hashdiff` column per satellite group, over the group's fields. */
  function SatColumns(sats: seq<Group<Transition>>): (r: seq<HashColumn>)
    ensures |r| == |sats|
    ensures forall i :: 0 <= i < |sats| ==> r[i] == HashColumn(sats[i].key + "_hashdiff", SourceFields(sats[i].members))
    decreases |sats|
  {
    if sats == [] then []
    else SatColumns(sats[..|sats| - 1]) + [HashColumn(sats[|sats| - 1].key + "_hashdiff", SourceFields(sats[|sats| - 1].members))]
  }

  /** What one link member contributes: the referenced hub's fields for `ll` (a missing hub is a `KeyError`), itself for `dk`. */
  function KeyContribution(m: Transition, hubs: seq<Group<Transition>>): Result<seq<string>, Exn> {
    if m.transferType == "ll" then
      match Lookup(hubs, m.sourceField)
      case None => Err(Exn("KeyError", m.sourceField))
      case Some(g) => Ok(SourceFields(g))
    else Ok([m.sourceField])
  }

  /** The fields a link group hashes: its members' contributions, in member order; the first failure wins. */
  function KeySources(members: seq<Transition>, hubs: seq<Group<Transition>>): Result<seq<string>, Exn>
    decreases |members|
  {
    if members == [] then Ok([])
    else match KeySources(members[..|members| - 1], hubs)
      case Err(e) => Err(e)
      case Ok(names) =>
        match KeyContribution(members[|members| - 1], hubs)
        case Err(e) => Err(e)
        case Ok(more) => Ok(names + more)
  }

  function LinkColumns(links: seq<Group<Transition>>, hubs: seq<Group<Transition>>): Result<seq<HashColumn>, Exn>
    decreases |links|
  {
    if links == [] then Ok([])
    else match LinkColumns(links[..|links| - 1], hubs)
      case Err(e) => Err(e)
      case Ok(cs) =>
        var g := links[|links| - 1];
        match KeySources(g.members, hubs)
        case Err(e) => Err(e)
        case Ok(names) => Ok(cs + [HashColumn(g.key + "_hk", names)])
  }

  /** The hash columns of the view, hubs first, then links, then satellites; or the `KeyError` that escapes. */
  function HashColumns(records: seq<Transition>): Result<seq<HashColumn>, Exn> {
    var hubs := HubGroups(records);
    match LinkColumns(LinkGroups(records), hubs)
    case Err(e) => Err(e)
    case Ok(lc) => Ok(HubColumns(hubs) + lc + SatColumns(SatGroups(records)))
  }

  /** `combined`: the rendered hash columns followed by `*`. */
  function Combined(cs: seq<HashColumn>): seq<string> {
    Render(cs) + ["*"]
  }

  // ---------------------------------------------------------------------------
  // Lemmas
  // ---------------------------------------------------------------------------

  /** An `ll` member whose group is not a hub group. */
  predicate DanglingIn(m: Transition, hubs: seq<Group<Transition>>) {
    m.transferType == "ll" && m.sourceField !in Keys(hubs)
  }

  lemma {:induction false} KeySourcesError(members: seq<Transition>, hubs: seq<Group<Transition>>)
    ensures KeySources(members, hubs).Err? <==> exists m :: m in members && DanglingIn(m, hubs)
    ensures KeySources(members, hubs).Err? ==> KeySources(members, hubs).error.cls == "KeyError"
    decreases |members|
  {
    if members != [] {
      var init := members[..|members| - 1];
      var last := members[|members| - 1];
      KeySourcesError(init, hubs);
      assert members == init + [last];
      assert forall m :: m in members <==> m in init || m == last;
      assert KeyContribution(last, hubs).Err? <==> DanglingIn(last, hubs);
      if KeySources(init, hubs).Ok? && KeyContribution(last, hubs).Ok? {
        assert forall m :: m in members ==> !DanglingIn(m, hubs);
      }
    }
  }

  lemma {:induction false} LinkColumnsError(links: seq<Group<Transition>>, hubs: seq<Group<Transition>>)
    ensures LinkColumns(links, hubs).Err? <==>
      exists i :: 0 <= i < |links| && exists m :: m in links[i].members && DanglingIn(m, hubs)
    ensures LinkColumns(links, hubs).Err? ==> LinkColumns(links, hubs).error.cls == "KeyError"
    ensures LinkColumns(links, hubs).Ok? ==> |LinkColumns(links, hubs).value| == |links|
    ensures LinkColumns(links, hubs).Ok? ==> forall i :: 0 <= i < |links| ==>
      KeySources(links[i].members, hubs).Ok? &&
      LinkColumns(links, hubs).value[i] == HashColumn(links[i].key + "_hk", KeySources(links[i].members, hubs).value)
    decreases |links|
  {
    if links != [] {
      var init := links[..|links| - 1];
      LinkColumnsError(init, hubs);
      KeySourcesError(links[|links| - 1].members, hubs);
      assert forall i :: 0 <= i < |init| ==> init[i] == links[i];
    }
  }

  /** A group name is a hub group's key iff some business-key record carries it. */
  lemma HubGroupKeys(records: seq<Transition>, k: string)
    ensures k in Keys(HubGroups(records)) <==> exists t :: t in records && IsBk(t) && t.groupName == k
  {
    var w := Where(records, IsBkFn());
    GroupByGeneral(w, GroupKeyFn());
    var ks := KeyList(w, GroupKeyFn());
    if k in ks {
      var i :| 0 <= i < |ks| && ks[i] == k;
      assert w[i] in multiset(records) by { assert w[i] in multiset(w); }
    }
    if exists t :: t in records && IsBk(t) && t.groupName == k {
      var t :| t in records && IsBk(t) && t.groupName == k;
      var j :| 0 <= j < |records| && records[j] == t;
      WhereKeeps(records, IsBkFn(), j);
      var i :| 0 <= i < |w| && w[i] == t;
      assert ks[i] == k;
    }
  }

  /** A link reference (`ll`) to a group that no business-key record of `records` belongs to. */
  predicate DanglingRef(records: seq<Transition>, t: Transition) {
    t.transferType == "ll" && !(exists b :: b in records && IsBk(b) && b.groupName == t.sourceField)
  }

  /** The view fails only with a `KeyError`, and only for a dangling link reference. */
  lemma HashColumnsErrorCause(records: seq<Transition>)
    ensures HashColumns(records).Err? ==> HashColumns(records).error.cls == "KeyError"
    ensures HashColumns(records).Err? ==> exists t :: t in records && DanglingRef(records, t)
  {
    var hubs := HubGroups(records);
    var links := LinkGroups(records);
    var w := Where(records, IsLinkKeyFn());
    LinkColumnsError(links, hubs);
    if HashColumns(records).Err? {
      var i :| 0 <= i < |links| && exists m :: m in links[i].members && DanglingIn(m, hubs);
      var m :| m in links[i].members && DanglingIn(m, hubs);
      RunsPartition(w, GroupKeyFn());
      FromPairsMembers(Runs(w, GroupKeyFn()), i, m);
      assert m in multiset(records) by { assert m in multiset(w); }
      HubGroupKeys(records, m.sourceField);
      assert DanglingRef(records, m);
    }
  }

  /**
   * When the transitions are contiguous by group name (every group name
   * belongs to one target table), every dangling link reference makes the
   * view fail.
   */
  lemma HashColumnsErrorComplete(records: seq<Transition>, t: Transition)
    requires Contiguous(records, GroupKeyFn())
    requires t in records && DanglingRef(records, t)
    ensures HashColumns(records).Err?
  {
    var hubs := HubGroups(records);
    var links := LinkGroups(records);
    var w := Where(records, IsLinkKeyFn());
    HubGroupKeys(records, t.sourceField);
    assert DanglingIn(t, hubs);
    WhereContiguous(records, IsLinkKeyFn(), GroupKeyFn());
    GroupByContiguous(w, GroupKeyFn());
    var j :| 0 <= j < |records| && records[j] == t;
    WhereKeeps(records, IsLinkKeyFn(), j);
    assert t in Flatten(links);
    FlattenMember(links, t);
    LinkColumnsError(links, hubs);
  }

  /** Every member of a dictionary built from groups is a member of one of the groups. */
  lemma FromPairsMembers<R>(gs: seq<Group<R>>, i: nat, x: R)
    requires i < |FromPairs(gs)| && x in FromPairs(gs)[i].members
    ensures x in Flatten(gs)
  {
    var d := FromPairs(gs);
    FromPairsKeys(gs);
    var k := d[i].key;
    LookupDistinct(d, i);
    FromPairsLookup(gs, k);
    assert LastValue(gs, k) == Some(d[i].members);
    LastValueMember(gs, k, x);
  }

  lemma {:induction false} LastValueMember<R>(gs: seq<Group<R>>, k: string, x: R)
    requires LastValue(gs, k).Some? && x in LastValue(gs, k).value
    ensures x in Flatten(gs)
    decreases |gs|
  {
    var n := |gs| - 1;
    FlattenSnoc(gs[..n], gs[n]);
    assert gs[..n] + [gs[n]] == gs;
    if gs[n].key != k {
      LastValueMember(gs[..n], k, x);
    }
  }

  /**
   * With transitions contiguous by group name, the view has one `<group>_hk`
   * column for every business-key group, hashing exactly that group's
   * business-key fields in transition order.
   */
  lemma HubColumnsCover(records: seq<Transition>, t: Transition)
    requires Contiguous(records, GroupKeyFn())
    requires HashColumns(records).Ok?
    requires t in records && IsBk(t)
    ensures HashColumn(t.groupName + "_hk", SourceFields(Filter(Where(records, IsBkFn()), GroupKeyFn(), t.groupName)))
      in HashColumns(records).value
  {
    var hubs := HubGroups(records);
    var cs := HashColumns(records).value;
    var hc := HubColumns(hubs);
    assert cs[..|hc|] == hc;
    var wb := Where(records, IsBkFn());
    WhereContiguous(records, IsBkFn(), GroupKeyFn());
    var j :| 0 <= j < |records| && records[j] == t;
    WhereKeeps(records, IsBkFn(), j);
    GroupOf(wb, GroupKeyFn(), t);
    var g :| 0 <= g < |hubs| && hubs[g] == Group(t.groupName, Filter(wb, GroupKeyFn(), t.groupName));
    assert hc[g] == cs[g];
  }

  /**
   * Likewise one `<group>_hashdiff` column for every satellite group, hashing
   * exactly that group's fields.
   */
  lemma SatColumnsCover(records: seq<Transition>, t: Transition)
    requires Contiguous(records, GroupKeyFn())
    requires HashColumns(records).Ok?
    requires t in records && IsSatField(t)
    ensures HashColumn(t.groupName + "_hashdiff", SourceFields(Filter(Where(records, IsSatFieldFn()), GroupKeyFn(), t.groupName)))
      in HashColumns(records).value
  {
    var hubs := HubGroups(records);
    var sats := SatGroups(records);
    var cs := HashColumns(records).value;
    var sc := SatColumns(sats);
    assert cs[|cs| - |sc|..] == sc;
    var ws := Where(records, IsSatFieldFn());
    WhereContiguous(records, IsSatFieldFn(), GroupKeyFn());
    var j :| 0 <= j < |records| && records[j] == t;
    WhereKeeps(records, IsSatFieldFn(), j);
    GroupOf(ws, GroupKeyFn(), t);
    var g :| 0 <= g < |sats| && sats[g] == Group(t.groupName, Filter(ws, GroupKeyFn(), t.groupName));
    assert sc[g] == cs[|cs| - |sc| + g];
  }

  // ---------------------------------------------------------------------------
  // The loops of compute_hash_view
  // ---------------------------------------------------------------------------

  /** The innermost loop: a hub's source fields appended one by one. */
  method AppendSourceFields(names: seq<string>, g: seq<Transition>) returns (out: seq<string>)
    ensures out == names + SourceFields(g)
  {
    out := names;
    var j := 0;
    while j < |g|
      invariant 0 <= j <= |g|
      invariant out == names + SourceFields(g[..j])
    {
      assert g[..j + 1] == g[..j] + [g[j]];
      out := out + [g[j].sourceField];
      j := j + 1;
    }
    assert g[..j] == g;
  }

  /** One more member adds its contribution to a successful prefix, or fails with it. */
  lemma KeySourcesPrefix(members: seq<Transition>, hubs: seq<Group<Transition>>, i: nat)
    requires i < |members| && KeySources(members[..i], hubs).Ok?
    ensures KeySources(members[..i + 1], hubs)
         == match KeyContribution(members[i], hubs)
            case Err(e) => Err(e)
            case Ok(more) => Ok(KeySources(members[..i], hubs).value + more)
  {
    assert members[..i + 1][..i] == members[..i];
  }

  /** The inner loop over a link group's members. */
  method LinkKeySourceNames(members: seq<Transition>, hubs: seq<Group<Transition>>)
    returns (r: Result<seq<string>, Exn>)
    ensures r == KeySources(members, hubs)
  {
    var names: seq<string> := [];
    var i := 0;
    while i < |members|
      invariant 0 <= i <= |members|
      invariant KeySources(members[..i], hubs) == Ok(names)
    {
      var ks := members[i];
      KeySourcesPrefix(members, hubs, i);
      if ks.transferType == "ll" {
        var hub := Lookup(hubs, ks.sourceField);
        if hub.None? {
          r := Err(Exn("KeyError", ks.sourceField));
          KeySourcesStops(members, hubs, i + 1);
          return;
        }
        names := AppendSourceFields(names, hub.value);
      } else {
        names := names + [ks.sourceField];
      }
      i := i + 1;
    }
    assert members[..i] == members;
    r := Ok(names);
  }

  /** Once a prefix fails, every longer prefix fails with the same error. */
  lemma {:induction false} KeySourcesStops(members: seq<Transition>, hubs: seq<Group<Transition>>, n: nat)
    requires 0 < n <= |members|
    requires KeySources(members[..n], hubs).Err?
    ensures KeySources(members, hubs) == KeySources(members[..n], hubs)
    decreases |members| - n
  {
    if n < |members| {
      assert members[..n + 1][..n] == members[..n];
      KeySourcesStops(members, hubs, n + 1);
    } else {
      assert members[..n] == members;
    }
  }

  lemma {:induction false} LinkColumnsStops(links: seq<Group<Transition>>, hubs: seq<Group<Transition>>, n: nat)
    requires 0 < n <= |links|
    requires LinkColumns(links[..n], hubs).Err?
    ensures LinkColumns(links, hubs) == LinkColumns(links[..n], hubs)
    decreases |links| - n
  {
    if n < |links| {
      assert links[..n + 1][..n] == links[..n];
      LinkColumnsStops(links, hubs, n + 1);
    } else {
      assert links[..n] == links;
    }
  }

  lemma AppendAssoc<T>(a: seq<T>, b: seq<T>, c: seq<T>)
    ensures (a + b) + c == a + (b + c)
  {
  }

  lemma RenderSnoc(cs: seq<HashColumn>, c: HashColumn)
    ensures Render(cs + [c]) == Render(cs) + [HashFields(c.name, c.fields)]
  {
    assert (cs + [c])[..|cs|] == cs;
  }

  lemma HubColumnsSnoc(hubs: seq<Group<Transition>>, i: nat)
    requires i < |hubs|
    ensures HubColumns(hubs[..i + 1]) == HubColumns(hubs[..i]) + [HashColumn(hubs[i].key + "_hk", SourceFields(hubs[i].members))]
  {
    assert hubs[..i + 1][..i] == hubs[..i];
  }

  lemma SatColumnsSnoc(sats: seq<Group<Transition>>, i: nat)
    requires i < |sats|
    ensures SatColumns(sats[..i + 1]) == SatColumns(sats[..i]) + [HashColumn(sats[i].key + "_hashdiff", SourceFields(sats[i].members))]
  {
    assert sats[..i + 1][..i] == sats[..i];
  }

  lemma LinkColumnsSnoc(links: seq<Group<Transition>>, hubs: seq<Group<Transition>>, i: nat)
    requires i < |links| && LinkColumns(links[..i], hubs).Ok?
    ensures KeySources(links[i].members, hubs).Err? ==>
      LinkColumns(links[..i + 1], hubs) == Err(KeySources(links[i].members, hubs).error)
    ensures KeySources(links[i].members, hubs).Ok? ==>
      LinkColumns(links[..i + 1], hubs) ==
        Ok(LinkColumns(links[..i], hubs).value + [HashColumn(links[i].key + "_hk", KeySources(links[i].members, hubs).value)])
  {
    assert links[..i + 1][..i] == links[..i];
  }

  /** Where each kind of column sits in hub columns, then link columns, then satellite columns. */
  lemma ColumnsLayout(hubs: seq<Group<Transition>>, links: seq<Group<Transition>>, sats: seq<Group<Transition>>)
    requires LinkColumns(links, hubs).Ok?
    ensures var cs := HubColumns(hubs) + LinkColumns(links, hubs).value + SatColumns(sats);
      && |cs| == |hubs| + |links| + |sats|
      && (forall i :: 0 <= i < |hubs| ==> cs[i] == HashColumn(hubs[i].key + "_hk", SourceFields(hubs[i].members)))
      && (forall i :: 0 <= i < |links| ==>
            KeySources(links[i].members, hubs).Ok? &&
            cs[|hubs| + i] == HashColumn(links[i].key + "_hk", KeySources(links[i].members, hubs).value))
      && (forall i :: 0 <= i < |sats| ==>
            cs[|hubs| + |links| + i] == HashColumn(sats[i].key + "_hashdiff", SourceFields(sats[i].members)))
  {
    LinkColumnsError(links, hubs);
    var hc, lc, sc := HubColumns(hubs), LinkColumns(links, hubs).value, SatColumns(sats);
    var cs := hc + lc + sc;
    forall i | 0 <= i < |links| ensures cs[|hubs| + i] == lc[i] { }
    forall i | 0 <= i < |sats| ensures cs[|hubs| + |links| + i] == sc[i] { }
  }

  /**
   * The layout of the view's hash columns: one per business-key group, then
   * one per link group, then one per satellite group; the hub and link
   * columns are named `<group>_hk`, the others `<group>_hashdiff`, and each
   * hashes its group's resolved fields.
   */
  lemma HashColumnsLayout(records: seq<Transition>)
    ensures var hubs, links, sats := HubGroups(records), LinkGroups(records), SatGroups(records);
      HashColumns(records).Ok? ==>
        var cs := HashColumns(records).value;
        && |cs| == |hubs| + |links| + |sats|
        && (forall i :: 0 <= i < |hubs| ==> cs[i] == HashColumn(hubs[i].key + "_hk", SourceFields(hubs[i].members)))
        && (forall i :: 0 <= i < |links| ==>
              KeySources(links[i].members, hubs).Ok? &&
              cs[|hubs| + i] == HashColumn(links[i].key + "_hk", KeySources(links[i].members, hubs).value))
        && (forall i :: 0 <= i < |sats| ==>
              cs[|hubs| + |links| + i] == HashColumn(sats[i].key + "_hashdiff", SourceFields(sats[i].members)))
  {
    var hubs, links, sats := HubGroups(records), LinkGroups(records), SatGroups(records);
    if LinkColumns(links, hubs).Ok? {
      ColumnsLayout(hubs, links, sats);
    }
  }

  /** The hub loop: one hash key per business-key group. */
  method HubHashFields(hubs: seq<Group<Transition>>) returns (fields: seq<string>)
    ensures fields == Render(HubColumns(hubs))
  {
    fields := [];
    ghost var cols: seq<HashColumn> := [];
    for i := 0 to |hubs|
      invariant cols == HubColumns(hubs[..i])
      invariant fields == Render(cols)
    {
      var c := HashColumn(hubs[i].key + "_hk", SourceFields(hubs[i].members));
      HubColumnsSnoc(hubs, i);
      RenderSnoc(cols, c);
      fields := fields + [HashFields(c.name, c.fields)];
      cols := cols + [c];
    }
    assert hubs[..|hubs|] == hubs;
  }

  /** The link loop: one hash key per link group, over the referenced hubs' fields and the link's own keys. */
  method LinkHashFields(links: seq<Group<Transition>>, hubs: seq<Group<Transition>>)
    returns (r: Result<seq<string>, Exn>)
    ensures LinkColumns(links, hubs).Err? ==> r == Err(LinkColumns(links, hubs).error)
    ensures LinkColumns(links, hubs).Ok? ==> r == Ok(Render(LinkColumns(links, hubs).value))
  {
    var fields: seq<string> := [];
    for i := 0 to |links|
      invariant LinkColumns(links[..i], hubs).Ok?
      invariant fields == Render(LinkColumns(links[..i], hubs).value)
    {
      LinkColumnsSnoc(links, hubs, i);
      var names := LinkKeySourceNames(links[i].members, hubs);
      if names.Err? {
        LinkColumnsStops(links, hubs, i + 1);
        r := Err(names.error);
        return;
      }
      var c := HashColumn(links[i].key + "_hk", names.value);
      RenderSnoc(LinkColumns(links[..i], hubs).value, c);
      fields := fields + [HashFields(c.name, c.fields)];
    }
    assert links[..|links|] == links;
    r := Ok(fields);
  }

  /** The satellite loop: one hash diff per satellite group. */
  method SatHashFields(sats: seq<Group<Transition>>) returns (fields: seq<string>)
    ensures fields == Render(SatColumns(sats))
  {
    fields := [];
    ghost var cols: seq<HashColumn> := [];
    for i := 0 to |sats|
      invariant cols == SatColumns(sats[..i])
      invariant fields == Render(cols)
    {
      var c := HashColumn(sats[i].key + "_hashdiff", SourceFields(sats[i].members));
      SatColumnsSnoc(sats, i);
      RenderSnoc(cols, c);
      fields := fields + [HashFields(c.name, c.fields)];
      cols := cols + [c];
    }
    assert sats[..|sats|] == sats;
  }

  lemma RenderConcat(a: seq<HashColumn>, b: seq<HashColumn>)
    ensures Render(a + b) == Render(a) + Render(b)
  {
  }

  /** `hash_field_list`: the three loops in turn, or the `KeyError` that escapes the link loop. */
  method BuildHashFieldList(records: seq<Transition>) returns (r: Result<seq<string>, Exn>)
    ensures HashColumns(records).Err? ==> r == Err(HashColumns(records).error)
    ensures HashColumns(records).Ok? ==> r == Ok(Render(HashColumns(records).value))
  {
    var hubs := HubGroups(records);
    var hubFields := HubHashFields(hubs);
    var linkFields := LinkHashFields(LinkGroups(records), hubs);
    if linkFields.Err? {
      return Err(linkFields.error);
    }
    var satFields := SatHashFields(SatGroups(records));
    var lc := LinkColumns(LinkGroups(records), hubs).value;
    RenderConcat(HubColumns(hubs), lc);
    RenderConcat(HubColumns(hubs) + lc, SatColumns(SatGroups(records)));
    r := Ok(hubFields + linkFields.value + satFields);
  }

  /** `compute_hash_view`'s statement for a successful column list. */
  function HashViewStmt(stgTable: string, records: seq<Transition>, cs: seq<HashColumn>): Stmt {
    CreateHashView(stgTable, CteFields(records), Combined(cs))
  }

  /** What `compute_hash_view` does to the engine and returns. */
  function HashViewRun(oracle: Oracle, st: DbState, stgTable: string): (DbState, Outcome) {
    var q := TransitionsResult(oracle, st, stgTable);
    if q.1.Err? then (q.0, Raised(q.1.error))
    else match HashColumns(q.1.value)
      case Err(e) => (q.0, Raised(e))
      case Ok(cs) =>
        var s := HashViewStmt(stgTable, q.1.value, cs);
        (Submit(oracle, q.0, s), Returned(ErrorOf(Failure(oracle, q.0, s), s, Refactored)))
  }

  /**
   * `compute_hash_view(stg_table)`: a failing `get_transitions` or a dangling
   * link reference raises; otherwise the view statement runs once and its
   * error, if any, is the only entry returned.
   */
  method ComputeHashView(db: Database, stgTable: string) returns (out: Outcome)
    modifies db
    ensures (db.State(), out) == HashViewRun(db.oracle, old(db.State()), stgTable)
    ensures var q := Stmt.GetTransitions([VStr(stgTable)]);
      var st1 := Submit(db.oracle, old(db.State()), q);
      && (Failure(db.oracle, old(db.State()), q).Some? ==>
            out == Raised(FetchError(Failure(db.oracle, old(db.State()), q).value)) && db.State() == st1)
      && (Failure(db.oracle, old(db.State()), q).None? ==>
            var records := TransitionsQuery(old(db.transitions), stgTable);
            match HashColumns(records)
            case Err(e) => out == Raised(e) && db.State() == st1
            case Ok(cs) =>
              var s := HashViewStmt(stgTable, records, cs);
              out == Returned(ErrorOf(Failure(db.oracle, st1, s), s, Refactored))
              && db.State() == Submit(db.oracle, st1, s))
  {
    var fetched := MetadataManager.GetTransitions(db, stgTable);
    if fetched.Err? {
      return Raised(fetched.error);
    }
    var records := fetched.value;
    var cte := CteFields(records);
    var hashFieldList := BuildHashFieldList(records);
    if hashFieldList.Err? {
      return Raised(hashFieldList.error);
    }
    var s := CreateHashView(stgTable, cte, hashFieldList.value + ["*"]);
    var errors := db.Perform(Exec(s), Refactored);
    out := Returned(errors);
  }
}
