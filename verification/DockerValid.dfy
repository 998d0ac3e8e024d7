/** What a valid state says about its sites: every site is decided once, in favour, at a known position. */
module DockerValid {
  import opened Frozen
  import opened DockerState
  import opened DockerThaw

  ghost predicate Distinct(vs: seq<Py>) { forall i, j | 0 <= i < j < |vs| :: Loose(vs[i]) != Loose(vs[j]) }

  lemma {:induction false} ImageCons(vs: seq<Py>)
    requires vs != []
    ensures Image(vs) == {Loose(vs[0])} + Image(vs[1..])
  {
    assert vs == [vs[0]] + vs[1..];
    assert vs[0] in vs;
  }

  lemma {:induction false} ImageSize(vs: seq<Py>)
    ensures |Image(vs)| <= |vs|
  {
    if vs != [] {
      ImageCons(vs);
      ImageSize(vs[1..]);
    }
  }

  lemma {:induction false} DistinctTail(vs: seq<Py>)
    requires vs != []
    ensures Distinct(vs) <==> Distinct(vs[1..]) && Loose(vs[0]) !in Image(vs[1..])
  {
  }

  /** The members of a sequence are distinct exactly when the set of them is as large as the sequence. */
  lemma {:induction false} SetSize(vs: seq<Py>)
    ensures |Image(vs)| == |vs| <==> Distinct(vs)
  {
    if vs != [] {
      ImageCons(vs);
      ImageSize(vs[1..]);
      SetSize(vs[1..]);
      DistinctTail(vs);
      if Loose(vs[0]) in Image(vs[1..]) { assert Image(vs) == Image(vs[1..]); }
    }
  }

  lemma {:induction false} NoDifference(a: set<Py>, b: set<Py>)
    ensures a - b == {} && b - a == {} <==> a == b
  {
  }

  /** The records and the universe reconcile: the same sites, none of them twice among the records. */
  lemma {:induction false} SitesReconcile(present: bool, ids: seq<Py>, positioned: bool, sites: seq<Py>)
    ensures SiteProblems(present, ids, positioned, sites) == Fine([]) <==>
            present && positioned && AllHashable(ids) && AllHashable(sites) && Distinct(ids) && Image(ids) == Image(sites)
  {
    SetSize(ids);
    NoDifference(Image(ids), Image(sites));
    FiveClean(!present, |Image(ids)| != |ids|, !positioned, Image(ids) - Image(sites) != {}, Image(sites) - Image(ids) != {});
  }

  lemma {:induction false} FiveClean(a: bool, b: bool, c: bool, d: bool, e: bool)
    ensures When(a, NoRecords) + When(b, DuplicateRecord) + When(c, NoPosition) + When(d, GhostRecord) + When(e, Undecided) == [] <==>
            !a && !b && !c && !d && !e
  {
  }

  lemma {:induction false} ColumnAt(rs: seq<Py>, k: string, i: nat)
    requires Column(rs, k).Fine? && i < |rs|
    ensures |Column(rs, k).value| == |rs| && Get(rs[i], k) == Fine(Column(rs, k).value[i])
  {
    ColumnLength(rs, k);
    if i > 0 { ColumnAt(rs[1..], k, i - 1); }
  }

  lemma {:induction false} ColumnLength(rs: seq<Py>, k: string)
    requires Column(rs, k).Fine?
    ensures |Column(rs, k).value| == |rs|
  {
    if rs != [] { ColumnLength(rs[1..], k); }
  }

  lemma {:induction false} UniverseClean(uni: Py)
    requires CheckUniverse(uni) == Fine([])
    ensures SiteIds(uni).Fine? && Distinct(SiteIds(uni).value)
    ensures Get(uni, "site_count").Fine? && Loose(Get(uni, "site_count").value) == Atom(FloatAtom(|SiteIds(uni).value| as real))
    ensures Get(uni, "reconciliation") == Fine(Str("AGREE"))
  {
    SetSize(SiteIds(uni).value);
  }

  lemma {:induction false} SitesClean(per: Py, uni: Py)
    requires CheckSites(per, uni) == Fine([])
    ensures Members(per).Fine? && RecordIds(per).Fine? && SiteIds(uni).Fine? && Column(Members(per).value, "position").Fine?
    ensures Truth(per) && Distinct(RecordIds(per).value) && Image(RecordIds(per).value) == Image(SiteIds(uni).value)
    ensures AllTrue(Column(Members(per).value, "position").value)
  {
    var records := Members(per).value;
    SitesReconcile(Truth(per), Column(records, "id").value, AllTrue(Column(records, "position").value), SiteIds(uni).value);
  }

  lemma {:induction false} AggregateClean(agg: Py, per: Py)
    requires CheckAggregate(agg, per) == Fine([])
    ensures Members(per).Fine? && Column(Members(per).value, "decision").Fine?
    ensures AllEqual(Column(Members(per).value, "decision").value, Str(SITE_PASS))
    ensures Get(agg, "docker_aggregate") == Fine(TRUE) && Get(agg, "docker_per_site_layer") == Fine(TRUE)
    ensures Get(agg, "workflow_coverage") == Fine(Str(WORKFLOW_COVERAGE_MARKER))
  {
  }

  lemma {:induction false} EqualAt(rs: seq<Py>, k: string, w: Py, i: nat)
    requires Column(rs, k).Fine? && AllEqual(Column(rs, k).value, w) && i < |rs|
    ensures Get(rs[i], k) == Fine(w)
  {
    ColumnAt(rs, k, i);
    assert Column(rs, k).value[i] in Column(rs, k).value;
  }

  lemma {:induction false} TrueAt(rs: seq<Py>, k: string, i: nat)
    requires Column(rs, k).Fine? && AllTrue(Column(rs, k).value) && i < |rs|
    ensures Get(rs[i], k).Fine? && Truth(Get(rs[i], k).value)
  {
    ColumnAt(rs, k, i);
    assert Column(rs, k).value[i] in Column(rs, k).value;
  }

  /** Every record passes, at a known position. */
  ghost predicate AllPass(records: seq<Py>) {
    forall i | 0 <= i < |records| ::
      Get(records[i], "decision") == Fine(Str(SITE_PASS)) &&
      Get(records[i], "position").Fine? && Truth(Get(records[i], "position").value)
  }

  lemma {:induction false} EveryPass(per: Py, uni: Py, agg: Py)
    requires CheckSites(per, uni) == Fine([]) && CheckAggregate(agg, per) == Fine([])
    ensures Members(per).Fine? && AllPass(Members(per).value)
  {
    SitesClean(per, uni);
    AggregateClean(agg, per);
    var records := Members(per).value;
    forall i | 0 <= i < |records|
      ensures Get(records[i], "decision") == Fine(Str(SITE_PASS))
      ensures Get(records[i], "position").Fine? && Truth(Get(records[i], "position").value)
    {
      EqualAt(records, "decision", Str(SITE_PASS), i);
      TrueAt(records, "position", i);
    }
  }

  /** The record ids and the site ids are the same, none of them twice, as many as the universe counts. */
  ghost predicate Reconciled(per: Py, uni: Py) {
    && SiteIds(uni).Fine? && RecordIds(per).Fine?
    && (var sites, ids := SiteIds(uni).value, RecordIds(per).value;
        && Distinct(sites) && Distinct(ids) && Image(ids) == Image(sites) && |ids| == |sites|
        && Get(uni, "site_count").Fine? && Loose(Get(uni, "site_count").value) == Atom(FloatAtom(|ids| as real)))
  }

  lemma {:induction false} EveryReconciled(per: Py, uni: Py)
    requires CheckUniverse(uni) == Fine([]) && CheckSites(per, uni) == Fine([])
    ensures Reconciled(per, uni)
  {
    UniverseClean(uni);
    SitesClean(per, uni);
    SetSize(SiteIds(uni).value);
    SetSize(RecordIds(per).value);
  }

  /** In a valid state every site of the universe is decided exactly once, in favour, at a known position. */
  lemma {:induction false} ValidMeans(s: Py, h: Host, sha: Sha)
    requires ValidState(s, h, sha)
    ensures Item(s, "universe").Fine? && Item(s, "per_site").Fine? && Members(Item(s, "per_site").value).Fine?
    ensures Reconciled(Item(s, "per_site").value, Item(s, "universe").value)
    ensures AllPass(Members(Item(s, "per_site").value).value)
  {
    ValidSections(s, h, sha);
    EveryReconciled(Item(s, "per_site").value, Item(s, "universe").value);
    EveryPass(Item(s, "per_site").value, Item(s, "universe").value, Item(s, "aggregate").value);
  }
}
