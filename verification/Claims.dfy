/** A table filled from owners that each claim some keys: when writing one owner's claim, or dropping it,
    leaves the table equal to what the owners claim together. */
module Claims {

  datatype Claim<K(==), V> = Claim(keys: set<K>, info: V)

  type Owners<!K, V> = map<string, Claim<K, V>>

  ghost predicate Disjoint<K, V>(o: Owners<K, V>) {
    forall a, b :: a in o && b in o && a != b ==> o[a].keys !! o[b].keys
  }

  /** The table holds exactly the claimed keys, each with its owner's information. */
  ghost predicate Agreed<K, V>(o: Owners<K, V>, t: map<K, V>) { Holds(o, t) && Owned(o, t) }

  /** Every claimed key is there, with its owner's information. */
  ghost predicate Holds<K, V>(o: Owners<K, V>, t: map<K, V>) {
    forall id, k :: id in o && k in o[id].keys ==> k in t && t[k] == o[id].info
  }

  /** Every key there is claimed. */
  ghost predicate Owned<K, V>(o: Owners<K, V>, t: map<K, V>) {
    forall k :: k in t ==> exists id :: id in o && k in o[id].keys
  }

  /** No other owner claims a key of the claim. */
  ghost predicate Free<K, V>(o: Owners<K, V>, id: string, c: Claim<K, V>) {
    forall i :: i in o && i != id ==> o[i].keys !! c.keys
  }

  function Put<K, V>(t: map<K, V>, c: Claim<K, V>): map<K, V> { t + map k | k in c.keys :: c.info }

  lemma PutStaysDisjoint<K, V>(o: Owners<K, V>, id: string, c: Claim<K, V>)
    requires Disjoint(o) && Free(o, id, c)
    ensures Disjoint(o[id := c])
  {
  }

  /** Writing a claim keeps the agreement exactly when its owner gives up none of its keys. */
  lemma PutAgreesExactly<K, V>(o: Owners<K, V>, t: map<K, V>, id: string, c: Claim<K, V>)
    requires Disjoint(o) && Agreed(o, t) && Free(o, id, c)
    ensures Agreed(o[id := c], Put(t, c)) <==> (id in o ==> o[id].keys <= c.keys)
  {
    if id in o && !(o[id].keys <= c.keys) {
      StaleKey(o, t, id, c);
    } else {
      PutAgrees(o, t, id, c);
    }
  }

  lemma PutAgrees<K, V>(o: Owners<K, V>, t: map<K, V>, id: string, c: Claim<K, V>)
    requires Disjoint(o) && Agreed(o, t) && Free(o, id, c)
    requires id in o ==> o[id].keys <= c.keys
    ensures Agreed(o[id := c], Put(t, c))
  {
    PutHolds(o, t, id, c);
    PutOwned(o, t, id, c);
  }

  lemma PutHolds<K, V>(o: Owners<K, V>, t: map<K, V>, id: string, c: Claim<K, V>)
    requires Holds(o, t) && Free(o, id, c)
    ensures Holds(o[id := c], Put(t, c))
  {
  }

  lemma PutOwned<K, V>(o: Owners<K, V>, t: map<K, V>, id: string, c: Claim<K, V>)
    requires Owned(o, t) && (id in o ==> o[id].keys <= c.keys)
    ensures Owned(o[id := c], Put(t, c))
  {
    var o', t' := o[id := c], Put(t, c);
    forall k | k in t' ensures exists i :: i in o' && k in o'[i].keys {
      if k in c.keys {
        assert o'[id] == c;
      } else {
        var i :| i in o && k in o[i].keys;
        assert i == id || o'[i] == o[i];
      }
    }
  }

  lemma StaleKey<K, V>(o: Owners<K, V>, t: map<K, V>, id: string, c: Claim<K, V>)
    requires Disjoint(o) && Agreed(o, t) && id in o && !(o[id].keys <= c.keys)
    ensures !Agreed(o[id := c], Put(t, c))
  {
    var k :| k in o[id].keys && k !in c.keys;
    assert k in Put(t, c);
  }

  lemma DropAgrees<K, V>(o: Owners<K, V>, t: map<K, V>, id: string)
    requires Disjoint(o) && Agreed(o, t) && id in o
    ensures Disjoint(o - {id}) && Agreed(o - {id}, t - o[id].keys)
  {
    var o', t' := o - {id}, t - o[id].keys;
    forall k | k in t' ensures exists i :: i in o' && k in o'[i].keys {
      var i :| i in o && k in o[i].keys;
      assert i in o';
    }
  }
}
