module Suspension {
  // `_suspend_caches`: every classified cache is emptied for the duration of a fresh derivation and
  // gets its contents back afterwards, whatever happened in between.

  type Contents = map<string, int>

  /** A cache container that supports `clear` and `update`. */
  class Cache {
    var entries: Contents

    constructor (contents: Contents)
      ensures entries == contents
    {
      entries := contents;
    }

    /** `clear` and then `update`. */
    method Refill(contents: Contents)
      modifies this
      ensures entries == contents
    {
      entries := map[];
      entries := entries + contents;
    }
  }

  /** A container and the copy of its contents taken when it was suspended. */
  datatype Saved = Saved(cache: Cache, contents: Contents)

  /** Where `c` is listed last among the first `n` containers. */
  ghost predicate LastAt(caches: seq<Cache>, n: nat, c: Cache, i: nat)
    requires n <= |caches|
  {
    i < n && caches[i] == c && forall j | i < j < n :: caches[j] != c
  }

  ghost predicate Repeated(caches: seq<Cache>, n: nat, c: Cache)
    requires n <= |caches|
  {
    exists i, j :: 0 <= i < j < n && caches[i] == c && caches[j] == c
  }

  /** Saves and empties the first `stop` containers, or all of them. */
  method Suspend(caches: seq<Cache>, stop: nat) returns (saved: seq<Saved>)
    modifies caches
    ensures |saved| == if stop < |caches| then stop else |caches|
    ensures forall i | 0 <= i < |saved| :: saved[i].cache == caches[i]
    ensures forall i | 0 <= i < |saved| ::
              saved[i].contents == if caches[i] in caches[..i] then map[] else old(caches[i].entries)
    ensures forall c | c in caches[..|saved|] :: c.entries == map[]
    ensures forall c | c in caches && c !in caches[..|saved|] :: c.entries == old(c.entries)
  {
    saved := [];
    var n := if stop < |caches| then stop else |caches|;
    for k := 0 to n
      invariant |saved| == k && forall i | 0 <= i < k :: saved[i].cache == caches[i]
      invariant forall i | 0 <= i < k ::
                  saved[i].contents == if caches[i] in caches[..i] then map[] else old(caches[i].entries)
      invariant forall c | c in caches[..k] :: c.entries == map[]
      invariant forall c | c in caches && c !in caches[..k] :: c.entries == old(c.entries)
    {
      assert caches[..k + 1] == caches[..k] + [caches[k]];
      saved := saved + [Saved(caches[k], caches[k].entries)];
      caches[k].entries := map[];
    }
  }

  lemma {:induction false} LastEarlier(caches: seq<Cache>, k: nat, i: nat)
    requires i < k < |caches| && LastAt(caches, k + 1, caches[i], i)
    ensures LastAt(caches, k, caches[i], i) && caches[i] != caches[k]
  {
  }

  /** The `finally` clause: clear each container and put its saved contents back. */
  method Restore(saved: seq<Saved>, ghost caches: seq<Cache>)
    requires |saved| <= |caches| && forall i | 0 <= i < |saved| :: saved[i].cache == caches[i]
    modifies caches
    ensures forall i | 0 <= i < |saved| && LastAt(caches, |saved|, caches[i], i) :: caches[i].entries == saved[i].contents
    ensures forall c | c in caches && c !in caches[..|saved|] :: c.entries == old(c.entries)
  {
    for k := 0 to |saved|
      invariant forall i | 0 <= i < k && LastAt(caches, k, caches[i], i) :: caches[i].entries == saved[i].contents
      invariant forall c | c in caches && c !in caches[..k] :: c.entries == old(c.entries)
    {
      assert caches[..k + 1] == caches[..k] + [caches[k]];
      forall i | 0 <= i < k && LastAt(caches, k + 1, caches[i], i)
        ensures LastAt(caches, k, caches[i], i) && caches[i] != caches[k]
      {
        LastEarlier(caches, k, i);
      }
      saved[k].cache.Refill(saved[k].contents);
    }
  }

  /** What the body leaves behind in the containers: anything at all. */
  method Disturb(caches: seq<Cache>, left: seq<Contents>)
    requires |left| == |caches|
    modifies caches
  {
    for i := 0 to |caches| {
      caches[i].entries := left[i];
    }
  }

  /**
   The bracket. `stop` is the number of containers suspended before an exception while entering, if
   one occurs; `left` is what the body leaves in the containers, whether or not it raises. Each
   container ends up with its earlier contents, except that one listed more than once ends up empty.
   */
  method Bracket(caches: seq<Cache>, stop: nat, left: seq<Contents>) returns (entered: bool, seen: seq<Contents>)
    requires |left| == |caches|
    modifies caches
    ensures entered <==> stop >= |caches|
    ensures entered ==> |seen| == |caches| && forall i | 0 <= i < |seen| :: seen[i] == map[]
    ensures var n := if entered then |caches| else stop;
            forall c | c in caches :: c.entries == if Repeated(caches, n, c) then map[] else old(c.entries)
  {
    var saved := Suspend(caches, stop);
    entered, seen := |saved| == |caches|, [];
    if entered {
      for i := 0 to |caches|
        invariant |seen| == i && forall j | 0 <= j < i :: seen[j] == map[]
        invariant forall c | c in caches :: c.entries == map[]
      {
        assert caches[i] in caches[..|caches|];
        seen := seen + [caches[i].entries];
      }
      Disturb(caches, left);
    }
    Restore(saved, caches);
    ghost var n := |saved|;
    forall c | c in caches
      ensures c.entries == if Repeated(caches, n, c) then map[] else old(c.entries)
    {
      if c in caches[..n] {
        var i := LastOccurrence(caches, n, c);
        if Repeated(caches, n, c) {
          var a, b :| 0 <= a < b < n && caches[a] == c && caches[b] == c;
          assert a < i && caches[..i][a] == c;
        } else {
          assert forall a | 0 <= a < i :: caches[a] != c;
        }
      }
    }
  }

  lemma {:induction false} LastOccurrence(caches: seq<Cache>, n: nat, c: Cache) returns (i: nat)
    requires n <= |caches| && c in caches[..n]
    ensures LastAt(caches, n, c, i)
  {
    if caches[n - 1] == c {
      i := n - 1;
    } else {
      assert caches[..n] == caches[..n - 1] + [caches[n - 1]];
      i := LastOccurrence(caches, n - 1, c);
    }
  }

  /** With pairwise distinct containers nothing is lost, however the bracket was left. */
  method DistinctBracket(caches: seq<Cache>, stop: nat, left: seq<Contents>) returns (entered: bool)
    requires |left| == |caches| && forall i, j | 0 <= i < j < |caches| :: caches[i] != caches[j]
    modifies caches
    ensures forall c | c in caches :: c.entries == old(c.entries)
  {
    var seen;
    entered, seen := Bracket(caches, stop, left);
  }

  /** Two classified names: nothing is lost exactly if they name different containers, or one that was empty. */
  method TwoNames(a: Cache, b: Cache, left: seq<Contents>)
    requires |left| == 2
    modifies a, b
    ensures a.entries == (if a == b then map[] else old(a.entries)) && b.entries == (if a == b then map[] else old(b.entries))
    ensures (a.entries == old(a.entries) && b.entries == old(b.entries)) <==> (a != b || old(a.entries) == map[])
  {
    var pair := [a, b];
    var _, _ := Bracket(pair, 2, left);
    assert pair[0] == a && pair[1] == b && a in pair && b in pair;
    assert Repeated(pair, 2, a) <==> a == b;
    assert Repeated(pair, 2, b) <==> a == b;
  }
}
