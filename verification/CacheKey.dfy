module CacheKey {
  // The cache key of a state: which fields it is made of, and that it tells apart whatever differs in one
  // of them.

  import opened Frozen
  import opened DockerState
  import opened CanonicalDicts

  // ---------------------------------------------------------------- the fields of the key

  ghost function Field(s: Py, section: string, field: string): Out<Py> {
    if Item(s, section).Fine? then Item(Item(s, section).value, field) else Crash
  }

  /** It is there, and neither `None` nor the empty string. */
  ghost predicate Usable(x: Out<Py>) { x.Fine? && x.value != Atom(NoneAtom) && x.value != Atom(StrAtom("")) }

  /** The fields that identify a state, apart from the version of its schema. */
  predicate Identifies(section: string, field: string) {
    || (section == "repository" && (field == "staged_tree" || field == "source_content_token"))
    || (section == "policy" &&
        (field == "policy_digest" || field == "category_table_digest" || field == "normalization_version"))
    || (section == "parser" &&
        (field == "parser_schema_version" || field == "parser_completion" || field == "source_position_version"))
    || (section == "universe" && (field == "production_universe_digest" || field == "independent_universe_digest"))
    || (section == "authorization" && field == "pair_digest")
  }

  /** Nothing of the identity is missing. */
  ghost predicate Complete(s: Py) {
    && Usable(Item(s, "schema_version"))
    && forall section, field | Identifies(section, field) :: Usable(Field(s, section, field))
  }

  /** Both are there and look the same. */
  ghost predicate Alike(x: Out<Py>, y: Out<Py>, h: Host) {
    x.Fine? && y.Fine? && Canonical(x.value, h) == Canonical(y.value, h)
  }

  /** The two states have the same identity. */
  ghost predicate SameIdentity(s: Py, t: Py, h: Host) {
    && Alike(Item(s, "schema_version"), Item(t, "schema_version"), h)
    && forall section, field | Identifies(section, field) :: Alike(Field(s, section, field), Field(t, section, field), h)
  }

  // ---------------------------------------------------------------- any list of components

  lemma {:induction false} ComponentsAt(s: Py, contract: string, sources: seq<Source>, i: nat)
    requires i < |sources| && Components(s, contract, sources).Fine?
    ensures Component(s, contract, sources[i]) == Fine(Components(s, contract, sources).value[i])
  {
    if i > 0 { ComponentsAt(s, contract, sources[1..], i - 1); }
  }

  /** The named part of the two states is there and looks the same. */
  ghost predicate SameComponent(s: Py, c: string, t: Py, d: string, source: Source, h: Host) {
    Alike(Component(s, c, source), Component(t, d, source), h)
  }

  lemma {:induction false} SameFormSameComponents(names: seq<Key>, sources: seq<Source>, s: Py, c: string, t: Py, d: string,
                                                  h: Host)
    requires |names| == |sources| && FormOf(names, sources, s, c, h).Fine?
    requires FormOf(names, sources, s, c, h) == FormOf(names, sources, t, d, h)
    ensures forall x | x in sources :: SameComponent(s, c, t, d, x, h)
  {
    var vs, ws := Components(s, c, sources).value, Components(t, d, sources).value;
    SameDictSameValues(names, vs, ws, h);
    forall x | x in sources ensures SameComponent(s, c, t, d, x, h) {
      var i :| 0 <= i < |sources| && sources[i] == x;
      ComponentsAt(s, c, sources, i);
      ComponentsAt(t, d, sources, i);
      CanonicalAt(vs, h, i);
      CanonicalAt(ws, h, i);
    }
  }

  lemma {:induction false} ComponentsFine(s: Py, c: string, sources: seq<Source>)
    ensures Components(s, c, sources).Fine? && !AnyEmpty(Components(s, c, sources).value) <==>
            forall x | x in sources :: Usable(Component(s, c, x))
  {
    if sources != [] {
      ComponentsFine(s, c, sources[1..]);
      assert sources == [sources[0]] + sources[1..];
    }
  }

  lemma {:induction false} FormFine(names: seq<Key>, sources: seq<Source>, s: Py, c: string, h: Host)
    ensures FormOf(names, sources, s, c, h).Fine? <==> forall x | x in sources :: Usable(Component(s, c, x))
  {
    ComponentsFine(s, c, sources);
  }

  lemma {:induction false} ComponentsAlike(s: Py, c: string, t: Py, d: string, sources: seq<Source>, h: Host)
    requires Components(s, c, sources).Fine? && Components(t, d, sources).Fine?
    requires forall x | x in sources :: SameComponent(s, c, t, d, x, h)
    ensures CanonicalAll(Components(s, c, sources).value, h) == CanonicalAll(Components(t, d, sources).value, h)
  {
    if sources != [] {
      assert sources[0] in sources && forall x | x in sources[1..] :: x in sources;
      ComponentsAlike(s, c, t, d, sources[1..], h);
    }
  }

  /** Two forms are the same exactly if the components look the same. */
  lemma {:induction false} FormsEqual(names: seq<Key>, sources: seq<Source>, s: Py, c: string, t: Py, d: string, h: Host)
    requires |names| == |sources| && FormOf(names, sources, s, c, h).Fine? && FormOf(names, sources, t, d, h).Fine?
    ensures FormOf(names, sources, s, c, h) == FormOf(names, sources, t, d, h) <==>
            forall x | x in sources :: SameComponent(s, c, t, d, x, h)
  {
    if FormOf(names, sources, s, c, h) == FormOf(names, sources, t, d, h) {
      SameFormSameComponents(names, sources, s, c, t, d, h);
    } else if forall x | x in sources :: SameComponent(s, c, t, d, x, h) {
      ComponentsAlike(s, c, t, d, sources, h);
    }
  }

  // ---------------------------------------------------------------- the key of a state

  predicate Listed(x: Source) {
    match x
    case In(section, field) => Identifies(section, field)
    case Top(field) => field == "schema_version"
    case Contract => true
  }

  lemma {:induction false} SourceListed(x: Source)
    ensures x in KEY_SOURCES <==> Listed(x)
  {
    var all := KEY_SOURCES;
    if Listed(x) {
      assert x == all[0] || x == all[1] || x == all[2] || x == all[3] || x == all[4] || x == all[5] || x == all[6] ||
             x == all[7] || x == all[8] || x == all[9] || x == all[10] || x == all[11] || x == all[12];
    }
  }

  /** The list holds these sources and no others. */
  ghost predicate AllListed(sources: seq<Source>) { forall x :: x in sources <==> Listed(x) }

  lemma {:induction false} SourcesListed()
    ensures AllListed(KEY_SOURCES)
  {
    forall x ensures x in KEY_SOURCES <==> Listed(x) { SourceListed(x); }
  }

  lemma {:induction false} CompleteIs(s: Py, c: string, sources: seq<Source>)
    requires AllListed(sources)
    ensures (forall x | x in sources :: Usable(Component(s, c, x))) <==> Complete(s) && c != ""
  {
    if forall x | x in sources :: Usable(Component(s, c, x)) {
      assert Usable(Component(s, c, Top("schema_version"))) && Usable(Component(s, c, Contract));
      forall section, field | Identifies(section, field) ensures Usable(Field(s, section, field)) {
        assert Usable(Component(s, c, In(section, field)));
      }
    }
  }

  lemma {:induction false} IdentityIs(s: Py, c: string, t: Py, d: string, sources: seq<Source>, h: Host)
    requires AllListed(sources)
    ensures (forall x | x in sources :: SameComponent(s, c, t, d, x, h)) <==> c == d && SameIdentity(s, t, h)
  {
    if forall x | x in sources :: SameComponent(s, c, t, d, x, h) {
      assert SameComponent(s, c, t, d, Top("schema_version"), h) && SameComponent(s, c, t, d, Contract, h);
      forall section, field | Identifies(section, field) ensures Alike(Field(s, section, field), Field(t, section, field), h) {
        assert SameComponent(s, c, t, d, In(section, field), h);
      }
    }
  }

  /** A key can be made exactly if nothing of the identity is missing. */
  lemma {:induction false} KeyComplete(s: Py, c: string, h: Host, sha: Sha)
    ensures KeyForm(s, c, h).Fine? <==> Complete(s) && c != ""
    ensures KeyDigest(s, c, h, sha).Fine? <==> Complete(s) && c != ""
  {
    FormFine(CACHE_KEY_FIELDS, KEY_SOURCES, s, c, h);
    SourcesListed();
    CompleteIs(s, c, KEY_SOURCES);
  }

  lemma {:induction false} KeyFormsEqual(s: Py, c: string, t: Py, d: string, h: Host)
    requires KeyForm(s, c, h).Fine? && KeyForm(t, d, h).Fine?
    ensures KeyForm(s, c, h) == KeyForm(t, d, h) <==> c == d && SameIdentity(s, t, h)
  {
    KeyShape();
    FormsEqual(CACHE_KEY_FIELDS, KEY_SOURCES, s, c, t, d, h);
    SourcesListed();
    IdentityIs(s, c, t, d, KEY_SOURCES, h);
  }

  lemma {:induction false} KeyShape()
    ensures |CACHE_KEY_FIELDS| == |KEY_SOURCES|
  {
  }

  /** If both forms exist, they do not collide. */
  ghost predicate FarApart(a: Out<Canon>, b: Out<Canon>, sha: Sha) { a.Fine? && b.Fine? ==> NoCollision(sha, a.value, b.value) }

  /** Unless they collide, two keys are the same exactly if the contract and the identity are. */
  lemma {:induction false} KeyExactly(s: Py, c: string, t: Py, d: string, h: Host, sha: Sha)
    requires KeyDigest(s, c, h, sha).Fine? && KeyDigest(t, d, h, sha).Fine?
    requires FarApart(KeyForm(s, c, h), KeyForm(t, d, h), sha)
    ensures KeyDigest(s, c, h, sha) == KeyDigest(t, d, h, sha) <==> c == d && SameIdentity(s, t, h)
  {
    KeyFormsEqual(s, c, t, d, h);
  }
}
