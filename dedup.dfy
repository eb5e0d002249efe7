/**
  `drop_duplicates(subset=<all columns but Kommentar>, keep='first')`: scan
  the rows in order and keep a row only when no earlier row has the same key.
 */
module Dedup {
  import opened Sales

  function KeySet(t: Table): set<DedupKey> {
    set i | 0 <= i < |t| :: KeyOf(t[i])
  }

  /** Row `i` is the first row with its key. */
  predicate IsFirstOccurrence(t: Table, i: int)
    requires 0 <= i < |t|
  {
    forall j | 0 <= j < i :: KeyOf(t[j]) != KeyOf(t[i])
  }

  predicate KeysDistinct(t: Table) {
    forall i, j | 0 <= i < j < |t| :: KeyOf(t[i]) != KeyOf(t[j])
  }

  lemma KeySetSnoc(t: Table, x: Row)
    ensures KeySet(t + [x]) == KeySet(t) + {KeyOf(x)}
  {
    var u := t + [x];
    forall k | k in KeySet(u) ensures k in KeySet(t) + {KeyOf(x)} {
      var i :| 0 <= i < |u| && KeyOf(u[i]) == k;
      if i < |t| { assert u[i] == t[i]; }
    }
    forall k | k in KeySet(t) + {KeyOf(x)} ensures k in KeySet(u) {
      if k == KeyOf(x) {
        assert u[|t|] == x;
      } else {
        var i :| 0 <= i < |t| && KeyOf(t[i]) == k;
        assert u[i] == t[i];
      }
    }
  }

  function DropDuplicates(t: Table): (r: Table)
    ensures |r| <= |t|
    ensures KeySet(r) == KeySet(t)
    ensures KeysDistinct(r)
  {
    if t == [] then []
    else
      var init, last := t[..|t| - 1], t[|t| - 1];
      assert t == init + [last];
      KeySetSnoc(init, last);
      var kept := DropDuplicates(init);
      if KeyOf(last) in KeySet(kept) then kept
      else
        KeySetSnoc(kept, last);
        kept + [last]
  }

  /** Indices of the first occurrences, in increasing order. */
  function FirstIndices(t: Table): (ix: seq<nat>)
    ensures forall k | 0 <= k < |ix| :: ix[k] < |t|
    ensures forall k, l | 0 <= k < l < |ix| :: ix[k] < ix[l]
    ensures forall i | 0 <= i < |t| :: i in ix <==> IsFirstOccurrence(t, i)
  {
    if t == [] then []
    else
      var init := t[..|t| - 1];
      assert forall i | 0 <= i < |init| :: IsFirstOccurrence(init, i) == IsFirstOccurrence(t, i);
      FirstIndices(init) + (if IsFirstOccurrence(t, |t| - 1) then [|t| - 1] else [])
  }

  /** The last row is a first occurrence exactly when its key is new. */
  lemma LastIsFirstOccurrence(t: Table)
    requires t != []
    ensures KeyOf(t[|t| - 1]) !in KeySet(t[..|t| - 1]) <==> IsFirstOccurrence(t, |t| - 1)
  {
    var init := t[..|t| - 1];
    if KeyOf(t[|t| - 1]) in KeySet(init) {
      var j :| 0 <= j < |init| && KeyOf(init[j]) == KeyOf(t[|t| - 1]);
      assert init[j] == t[j];
    } else {
      forall j | 0 <= j < |t| - 1 ensures KeyOf(t[j]) != KeyOf(t[|t| - 1]) {
        assert t[j] == init[j];
      }
    }
  }

  /** The kept rows are exactly the first occurrences, in their original order. */
  lemma {:induction false} DropDuplicatesKeepsFirstOccurrences(t: Table)
    ensures |DropDuplicates(t)| == |FirstIndices(t)|
    ensures forall k | 0 <= k < |FirstIndices(t)| :: DropDuplicates(t)[k] == t[FirstIndices(t)[k]]
  {
    if t != [] {
      var init := t[..|t| - 1];
      DropDuplicatesKeepsFirstOccurrences(init);
      LastIsFirstOccurrence(t);
      var kept, ix := DropDuplicates(init), FirstIndices(init);
      assert forall k | 0 <= k < |ix| :: kept[k] == t[ix[k]] by {
        forall k | 0 <= k < |ix| ensures kept[k] == t[ix[k]] {
          assert init[ix[k]] == t[ix[k]];
        }
      }
    }
  }

  /** A row whose key is already in the table does not survive deduplication. */
  lemma AppendDuplicate(t: Table, x: Row)
    requires KeyOf(x) in KeySet(t)
    ensures DropDuplicates(t + [x]) == DropDuplicates(t)
  {
    assert (t + [x])[..|t|] == t;
  }

  /** Deduplicating a table without duplicates changes nothing. */
  lemma {:induction false} DistinctIsFixed(t: Table)
    requires KeysDistinct(t)
    ensures DropDuplicates(t) == t
  {
    if t != [] {
      var init, last := t[..|t| - 1], t[|t| - 1];
      assert KeysDistinct(init);
      DistinctIsFixed(init);
      assert KeyOf(last) !in KeySet(init);
      assert init + [last] == t;
    }
  }

  lemma DropDuplicatesIsIdempotent(t: Table)
    ensures DropDuplicates(DropDuplicates(t)) == DropDuplicates(t)
  {
    DistinctIsFixed(DropDuplicates(t));
  }
}
