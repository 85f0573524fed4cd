/**
 Receipts without repeats: worker execution receipts have distinct attempts per job, result application receipts are
 at most one per job, and exact copies are merely counted.
 */
module JobReceipts {
  import opened Bytes
  import opened JobLifecycle

  function Distinct<R(==)>(rs: seq<R>): set<R> {
    set r | r in rs
  }

  ghost predicate Injective<R(!new)>(digest: R -> string) {
    forall a: R, b: R :: digest(a) == digest(b) ==> a == b
  }

  lemma SameDigest<R(!new)>(digest: R -> string, a: R, b: R)
    requires Injective(digest) && digest(a) == digest(b)
    ensures a == b
  {
  }

  /** All receipts are valid, and receipts alike in ID or in key are the same receipt. */
  ghost predicate ReceiptsSound<R, K>(rs: set<R>, valid: R -> bool, id: R -> nat, key: R -> K) {
    && (forall r :: r in rs ==> valid(r))
    && (forall r, s :: r in rs && s in rs && (id(r) == id(s) || key(r) == key(s)) ==> r == s)
  }

  /** The map files every receipt under its ID. */
  ghost predicate Files<R>(m: map<nat, R>, rs: set<R>, id: R -> nat) {
    && (forall r :: r in rs ==> id(r) in m && m[id(r)] == r)
    && (forall k :: k in m ==> m[k] in rs && id(m[k]) == k)
    && |m| == |rs|
  }

  ghost predicate Keyed<R, K>(byKey: map<K, string>, holder: map<K, R>, rs: set<R>, digest: R -> string, key: R -> K) {
    && byKey.Keys == holder.Keys
    && (forall k :: k in holder ==> holder[k] in rs && key(holder[k]) == k && byKey[k] == digest(holder[k]))
    && (forall r :: r in rs ==> key(r) in byKey)
  }

  lemma Grows<R, K>(rs: set<R>, r: R, valid: R -> bool, id: R -> nat, key: R -> K)
    requires ReceiptsSound(rs, valid, id, key) && valid(r)
    requires forall s :: s in rs ==> id(s) != id(r) && key(s) != key(r)
    ensures ReceiptsSound(rs + {r}, valid, id, key)
  {
  }

  lemma FilesGrow<R>(m: map<nat, R>, rs: set<R>, id: R -> nat, r: R)
    requires Files(m, rs, id) && id(r) !in m
    ensures Files(m[id(r) := r], rs + {r}, id)
  {
    assert r !in rs;
  }

  lemma KeyedGrows<R, K>(byKey: map<K, string>, holder: map<K, R>, rs: set<R>, digest: R -> string, key: R -> K, r: R)
    requires Keyed(byKey, holder, rs, digest, key)
    ensures Keyed(byKey[key(r) := digest(r)], holder[key(r) := r], rs + {r}, digest, key)
  {
  }

  lemma Clash<R, K>(rs: set<R>, r: R, s: R, valid: R -> bool, id: R -> nat, key: R -> K)
    requires r in rs && s in rs && r != s && (id(r) == id(s) || key(r) == key(s))
    ensures !ReceiptsSound(rs, valid, id, key)
  {
  }

  lemma DistinctStep<R>(rs: seq<R>, n: nat)
    requires n < |rs|
    ensures Distinct(rs[..n + 1]) == Distinct(rs[..n]) + {rs[n]} && rs[n] in Distinct(rs)
    ensures Distinct(rs[..n]) <= Distinct(rs)
  {
    assert rs[..n + 1] == rs[..n] + [rs[n]];
  }

  /** One receipt: an exact copy, a new one to be filed, or a refusal. */
  method Consider<R(==,!new), K(==)>(receipt: R, byID: map<nat, R>, byKey: map<K, string>, ghost holder: map<K, R>,
      ghost seen: set<R>, valid: R -> bool, digest: R -> string, id: R -> nat, key: R -> K)
    returns (fits: bool, copy: bool)
    requires Injective(digest) && ReceiptsSound(seen, valid, id, key) && Files(byID, seen, id) &&
      Keyed(byKey, holder, seen, digest, key)
    ensures fits <==> ReceiptsSound(seen + {receipt}, valid, id, key)
    ensures fits ==> (copy <==> id(receipt) in byID) && (copy ==> seen + {receipt} == seen)
  {
    hide ReceiptsSound, Files, Keyed, Injective;
    if !valid(receipt) {
      Invalid(seen + {receipt}, receipt, valid, id, key);
      return false, false;
    }
    if id(receipt) in byID {
      Filed(byID, seen, id, id(receipt));
      if digest(byID[id(receipt)]) != digest(receipt) {
        Clash(seen + {receipt}, byID[id(receipt)], receipt, valid, id, key);
        return false, false;
      }
      SameDigest(digest, byID[id(receipt)], receipt);
      assert seen + {receipt} == seen;
      return true, true;
    }
    if key(receipt) in byKey {
      ghost var other := KeyHolder(byKey, holder, seen, digest, key, key(receipt));
      if byKey[key(receipt)] != digest(receipt) {
        Clash(seen + {receipt}, other, receipt, valid, id, key);
        return false, false;
      }
    }
    NewReceipt(byID, byKey, holder, seen, valid, digest, id, key, receipt);
    return true, false;
  }

  /** Accepts exactly the sound lists and files the distinct receipts; what is left over are exact copies. */
  method Dedupe<R(==,!new), K(==)>(rs: seq<R>, valid: R -> bool, digest: R -> string, id: R -> nat, key: R -> K)
    returns (r: Option<map<nat, R>>)
    requires Injective(digest)
    ensures r.Some? <==> ReceiptsSound(Distinct(rs), valid, id, key)
    ensures r.Some? ==> Files(r.value, Distinct(rs), id)
  {
    hide ReceiptsSound, Files, Keyed, Distinct, Injective;
    var byID: map<nat, R>, byKey: map<K, string> := map[], map[];
    ghost var holder: map<K, R>, seen: set<R> := map[], {};
    StartEmpty(rs, valid, digest, id, key);
    for i := 0 to |rs|
      invariant seen == Distinct(rs[..i])
      invariant ReceiptsSound(seen, valid, id, key) && Files(byID, seen, id) && Keyed(byKey, holder, seen, digest, key)
    {
      var receipt := rs[i];
      DistinctStep(rs, i);
      var fits, copy := Consider(receipt, byID, byKey, holder, seen, valid, digest, id, key);
      if !fits {
        Unsound(seen + {receipt}, Distinct(rs), valid, id, key);
        return None;
      }
      if !copy {
        FilesGrow(byID, seen, id, receipt);
        KeyedGrows(byKey, holder, seen, digest, key, receipt);
        byID, byKey := byID[id(receipt) := receipt], byKey[key(receipt) := digest(receipt)];
        holder, seen := holder[key(receipt) := receipt], seen + {receipt};
      }
    }
    assert rs[..|rs|] == rs;
    return Some(byID);
  }

  lemma Unsound<R, K>(some: set<R>, all: set<R>, valid: R -> bool, id: R -> nat, key: R -> K)
    requires some <= all && !ReceiptsSound(some, valid, id, key)
    ensures !ReceiptsSound(all, valid, id, key)
  {
  }

  lemma StartEmpty<R, K>(rs: seq<R>, valid: R -> bool, digest: R -> string, id: R -> nat, key: R -> K)
    ensures Distinct(rs[..0]) == {} && ReceiptsSound({}, valid, id, key) && Files(map[], {}, id) &&
      Keyed(map[], map[], {}, digest, key)
  {
  }

  lemma Invalid<R, K>(rs: set<R>, r: R, valid: R -> bool, id: R -> nat, key: R -> K)
    requires r in rs && !valid(r)
    ensures !ReceiptsSound(rs, valid, id, key)
  {
  }

  lemma Filed<R>(m: map<nat, R>, rs: set<R>, id: R -> nat, k: nat)
    requires Files(m, rs, id) && k in m
    ensures m[k] in rs && id(m[k]) == k
  {
  }

  lemma KeyHolder<R, K>(byKey: map<K, string>, holder: map<K, R>, rs: set<R>, digest: R -> string, key: R -> K, k: K)
    returns (r: R)
    requires Keyed(byKey, holder, rs, digest, key) && k in byKey
    ensures r in rs && key(r) == k && byKey[k] == digest(r)
  {
    r := holder[k];
  }

  /** A receipt with a new ID that was not refused has a new key too. */
  lemma NewReceipt<R(!new), K>(byID: map<nat, R>, byKey: map<K, string>, holder: map<K, R>, rs: set<R>,
      valid: R -> bool, digest: R -> string, id: R -> nat, key: R -> K, r: R)
    requires Injective(digest)
    requires Files(byID, rs, id) && Keyed(byKey, holder, rs, digest, key) && ReceiptsSound(rs, valid, id, key)
    requires id(r) !in byID && valid(r) && (key(r) in byKey ==> byKey[key(r)] == digest(r))
    ensures ReceiptsSound(rs + {r}, valid, id, key)
  {
    forall s | s in rs ensures id(s) != id(r) && key(s) != key(r) {
      if key(s) == key(r) {
        var other := KeyHolder(byKey, holder, rs, digest, key, key(r));
      }
    }
    Grows(rs, r, valid, id, key);
  }
}
