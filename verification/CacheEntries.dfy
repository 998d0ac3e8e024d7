/** The entries a lookup accepts, described field by field, and what `store` writes into them. */
module CacheEntries {
  import opened Common
  import opened Frozen
  import opened DockerState
  import opened StateShape
  import opened CacheKey
  import opened GovernedCache

  ghost predicate Labelled(e: Py) {
    && HasKeys(e, {"state", "state_digest", "cache_key_digest", "provenance", "validation_status", "cache_schema_version"})
    && Item(e, "cache_schema_version") == Fine(Str("i28bf-b1.1")) && Item(e, "validation_status") == Fine(Str("VALIDATED"))
  }

  /** The digests on the entry are those of its state, and it is filed under the key of that state. */
  ghost predicate Digested(e: Py, s: Py, key: string, contract: string, h: Host, sha: Sha) {
    && StateDigest(s, h, sha).Fine? && Item(e, "state_digest") == Fine(Str(StateDigest(s, h, sha).value))
    && KeyDigest(s, contract, h, sha) == Fine(key) && Item(e, "cache_key_digest") == Fine(Str(key))
  }

  ghost predicate Stamped(e: Py) {
    Item(e, "provenance").Fine? &&
    HasKeys(Item(e, "provenance").value,
            {"creation_utc", "owning_callable", "process_identity", "staged_tree", "origin", "provenance_schema_version"})
  }

  /** An entry that a lookup under `key` accepts. */
  ghost predicate Acceptable(e: Py, key: string, contract: string, h: Host, sha: Sha) {
    && Labelled(e) && Stamped(e) && Item(e, "state").Fine?
    && var s := Thaw(Item(e, "state").value, h);
       Described(s, h, sha) && Digested(e, s, key, contract, h, sha)
  }

  // ---------------------------------------------------------------- what is accepted

  /** No key is unknown and none is missing, for a list of names. */
  lemma {:induction false} NamesExactly(ks: seq<Key>, fields: seq<string>, names: set<string>)
    requires forall n :: n in fields <==> n in names
    ensures !AnyUnknown(ks, fields) && !AnyMissing(ks, fields) <==> forall k :: k in ks <==> k.StrKey? && k.text in names
  {
    if !AnyUnknown(ks, fields) && !AnyMissing(ks, fields) {
      forall k ensures k in ks <==> k.StrKey? && k.text in names {
        if k.StrKey? && k.text in names { assert k.text in fields; }
      }
    }
    if forall k :: k in ks <==> k.StrKey? && k.text in names {
      forall f | f in fields ensures StrKey(f) in ks { assert StrKey(f).text in names; }
    }
  }

  lemma {:induction false} ValueNames(e: Py)
    ensures IsMap(e) && CheckNames(e.keys) == [] <==>
      HasKeys(e, {"state", "state_digest", "cache_key_digest", "provenance", "validation_status", "cache_schema_version"})
  {
    if IsMap(e) {
      NamesExactly(e.keys, CACHE_VALUE_FIELDS,
        {"state", "state_digest", "cache_key_digest", "provenance", "validation_status", "cache_schema_version"});
      assert |CheckNames(e.keys)| == |Refuse(AnyUnknown(e.keys, CACHE_VALUE_FIELDS), UnknownValueFields)| +
                                     |Refuse(AnyMissing(e.keys, CACHE_VALUE_FIELDS), MissingValueFields)|;
    }
  }

  lemma {:induction false} ProvenanceNames(prov: Py)
    ensures ProvenanceFields(prov) <==>
      HasKeys(prov, {"creation_utc", "owning_callable", "process_identity", "staged_tree", "origin", "provenance_schema_version"})
  {
    if IsMap(prov) {
      NamesExactly(prov.keys, PROVENANCE_FIELDS,
        {"creation_utc", "owning_callable", "process_identity", "staged_tree", "origin", "provenance_schema_version"});
    }
  }

  lemma {:induction false} LabelsExactly(e: Py)
    ensures CheckLabels(e) == Fine([]) <==>
      Item(e, "cache_schema_version") == Fine(Str("i28bf-b1.1")) && Item(e, "validation_status") == Fine(Str("VALIDATED"))
  {
    if Item(e, "cache_schema_version").Fine? && Item(e, "validation_status").Fine? {
      var a, b := Item(e, "cache_schema_version").value != Str(CACHE_SCHEMA_VERSION),
                  Item(e, "validation_status").value != Str(VALIDATION_OK);
      assert |Refuse(a, StaleCacheSchema) + Refuse(b, NotValidated)| ==
             |Refuse(a, StaleCacheSchema)| + |Refuse(b, NotValidated)|;
    }
  }

  lemma {:induction false} BindingExactly(e: Py, s: Py, key: string, contract: string, h: Host, sha: Sha)
    ensures CheckBinding(e, s, Some(key), contract, h, sha) == Fine([]) <==>
            Digested(e, s, key, contract, h, sha) && Item(e, "provenance").Fine? && ProvenanceFields(Item(e, "provenance").value)
  {
    ClaimsExactly(e, s, key, contract, h, sha);
    var claims := CheckClaims(e, s, Some(key), contract, h, sha);
    if claims.Fine? && Item(e, "provenance").Fine? {
      var bad := Refuse(!ProvenanceFields(Item(e, "provenance").value), BadProvenance);
      assert |claims.value + bad| == |claims.value| + |bad|;
    }
  }

  lemma {:induction false} ClaimsExactly(e: Py, s: Py, key: string, contract: string, h: Host, sha: Sha)
    ensures CheckClaims(e, s, Some(key), contract, h, sha) == Fine([]) <==> Digested(e, s, key, contract, h, sha)
  {
    if CheckClaims(e, s, Some(key), contract, h, sha).Fine? {
      ClaimsHold(Item(e, "state_digest").value, StateDigest(s, h, sha).value, Item(e, "cache_key_digest").value,
                 KeyDigest(s, contract, h, sha).value, key);
    }
  }

  lemma {:induction false} ContentsExactly(e: Py, key: string, contract: string, h: Host, sha: Sha)
    ensures CheckContents(e, Some(key), contract, h, sha) == Fine([]) <==>
      && CheckLabels(e) == Fine([]) && Item(e, "state").Fine?
      && var s := Thaw(Item(e, "state").value, h);
         ValidState(s, h, sha) && CheckBinding(e, s, Some(key), contract, h, sha) == Fine([])
  {
    if CheckLabels(e).Fine? && Item(e, "state").Fine? {
      var s := Thaw(Item(e, "state").value, h);
      if ValidateState(s, h, sha).Fine? {
        JudgeClean(CheckLabels(e).value, ValidateState(s, h, sha).value, CheckBinding(e, s, Some(key), contract, h, sha));
      }
    }
  }

  lemma {:induction false} StateExactly(e: Py, s: Py, key: string, contract: string, h: Host, sha: Sha)
    ensures ValidState(s, h, sha) && CheckBinding(e, s, Some(key), contract, h, sha) == Fine([]) <==>
            Described(s, h, sha) && Digested(e, s, key, contract, h, sha) && Stamped(e)
  {
    ValidExactly(s, h, sha);
    BindingExactly(e, s, key, contract, h, sha);
    if Item(e, "provenance").Fine? { ProvenanceNames(Item(e, "provenance").value); }
  }

  lemma {:induction false} ContentsDescribed(e: Py, key: string, contract: string, h: Host, sha: Sha)
    ensures CheckContents(e, Some(key), contract, h, sha) == Fine([]) <==>
      && CheckLabels(e) == Fine([]) && Stamped(e) && Item(e, "state").Fine?
      && var s := Thaw(Item(e, "state").value, h);
         Described(s, h, sha) && Digested(e, s, key, contract, h, sha)
  {
    ContentsExactly(e, key, contract, h, sha);
    if Item(e, "state").Fine? { StateExactly(e, Thaw(Item(e, "state").value, h), key, contract, h, sha); }
  }

  /** The checks pass exactly if the entry is as described. */
  lemma {:induction false} EntryExactly(e: Py, key: string, contract: string, h: Host, sha: Sha)
    ensures CheckValue(e, Some(key), contract, h, sha) == Fine([]) <==> Acceptable(e, key, contract, h, sha)
  {
    ValueNames(e);
    LabelsExactly(e);
    ContentsDescribed(e, key, contract, h, sha);
  }

  lemma {:induction false} HitIs(cache: map<string, Py>, s: Py, contract: string, h: Host, sha: Sha, x: Py)
    ensures Answered(cache, s, contract, h, sha) == Hit(x) <==>
      var kd := KeyDigest(s, contract, h, sha);
      kd.Fine? && kd.value in cache && CheckValue(cache[kd.value], Some(kd.value), contract, h, sha) == Fine([]) &&
      Item(cache[kd.value], "state") == Fine(x)
  {
  }

  /** A lookup is a hit exactly if the identity is complete and an acceptable entry is filed under its key. */
  lemma {:induction false} HitExactly(cache: map<string, Py>, s: Py, contract: string, h: Host, sha: Sha, x: Py)
    ensures Answered(cache, s, contract, h, sha) == Hit(x) <==>
      && Complete(s) && contract != ""
      && var kd := KeyDigest(s, contract, h, sha);
         kd.Fine? && kd.value in cache && Acceptable(cache[kd.value], kd.value, contract, h, sha) &&
         Item(cache[kd.value], "state") == Fine(x)
  {
    KeyComplete(s, contract, h, sha);
    HitIs(cache, s, contract, h, sha, x);
    if KeyDigest(s, contract, h, sha).Fine? {
      var kd := KeyDigest(s, contract, h, sha).value;
      if kd in cache { EntryExactly(cache[kd], kd, contract, h, sha); }
    }
  }

  /** A lookup is a miss exactly if the identity asked for is complete and nothing, or None, is filed under its key. */
  lemma {:induction false} MissExactly(cache: map<string, Py>, s: Py, contract: string, h: Host, sha: Sha)
    ensures Answered(cache, s, contract, h, sha) == Miss <==>
      && Complete(s) && contract != ""
      && var kd := KeyDigest(s, contract, h, sha);
         kd.Fine? && (kd.value in cache ==> cache[kd.value] == Atom(NoneAtom))
  {
    KeyComplete(s, contract, h, sha);
  }

  // ---------------------------------------------------------------- what is written

  lemma {:induction false} ProvenanceKeysDistinct()
    ensures DistinctTexts(PROVENANCE_KEYS)
  {
    assert forall i | 0 <= i < 6 :: PROVENANCE_KEYS[i].text == PROVENANCE_FIELDS[i];
  }

  /** The provenance says when, by whom, in which process, for which tree and why. */
  ghost predicate Tells(prov: Py, stamp: Stamp, tree: Py) {
    && Item(prov, "creation_utc") == Fine(Str(stamp.utc)) && Item(prov, "process_identity") == Fine(Str(stamp.process))
    && Item(prov, "origin") == Fine(Str(stamp.origin)) && Item(prov, "staged_tree") == Fine(tree)
    && Item(prov, "owning_callable") == Fine(Str("docker_assurance_state.store"))
    && Item(prov, "provenance_schema_version") == Fine(Str("i28bf-b1.1"))
  }

  ghost predicate Witnessed(e: Py, s: Py, stamp: Stamp) {
    && Item(e, "provenance").Fine? && Field(s, "repository", "staged_tree").Fine?
    && Tells(Item(e, "provenance").value, stamp, DeepFreeze(Field(s, "repository", "staged_tree").value))
  }

  lemma {:induction false} FrozenProvenance(stamp: Stamp, tree: Py)
    ensures Tells(DeepFreeze(Provenance(stamp, tree)), stamp, DeepFreeze(tree))
  {
    var vs := Provenance(stamp, tree).vals;
    ProvenanceKeysDistinct();
    FrozenField(PROVENANCE_KEYS, vs, 0);
    FrozenField(PROVENANCE_KEYS, vs, 1);
    FrozenField(PROVENANCE_KEYS, vs, 2);
    FrozenField(PROVENANCE_KEYS, vs, 3);
    FrozenField(PROVENANCE_KEYS, vs, 4);
    FrozenField(PROVENANCE_KEYS, vs, 5);
  }

  lemma {:induction false} FiledIs(s: Py, contract: string, stamp: Stamp, h: Host, sha: Sha)
    requires Complete(s)
    ensures Filed(s, contract, stamp, h, sha).Fine? <==>
            ValidState(s, h, sha) && KeyDigest(s, contract, h, sha).Fine? && StateDigest(s, h, sha).Fine?
  {
    assert Identifies("repository", "staged_tree") && Usable(Field(s, "repository", "staged_tree"));
  }

  /** What `store` files: under the key of the state, with the stamp of the call. */
  lemma {:induction false} FiledExactly(s: Py, contract: string, stamp: Stamp, h: Host, sha: Sha)
    ensures Filed(s, contract, stamp, h, sha).Fine? <==>
            Described(s, h, sha) && Complete(s) && contract != "" && StateDigest(s, h, sha).Fine?
    ensures Filed(s, contract, stamp, h, sha).Fine? ==>
      var (kd, e) := Filed(s, contract, stamp, h, sha).value;
      KeyDigest(s, contract, h, sha) == Fine(kd) && Witnessed(e, s, stamp)
  {
    ValidExactly(s, h, sha);
    KeyComplete(s, contract, h, sha);
    if Complete(s) { FiledIs(s, contract, stamp, h, sha); }
    if Filed(s, contract, stamp, h, sha).Fine? {
      var tree := Field(s, "repository", "staged_tree").value;
      FiledFields(s, StateDigest(s, h, sha).value, KeyDigest(s, contract, h, sha).value, Provenance(stamp, tree));
      FrozenProvenance(stamp, tree);
    }
  }
}
