/**
  Buckets of held keys. The combo engine keeps four dictionaries from a lookup key to the set of
  held bindings under it, and updates them by hand when a key goes down or up.
*/
module HeldIndex {
  import opened ComboModel

  type Index<K> = map<K, set<Binding>>

  type FullKey = (string, string, string)
  type PairKey = (string, string)

  function FullKeyOf(b: Binding): FullKey { (b.hardwareId, b.token, b.source) }
  function AnySourceKeyOf(b: Binding): PairKey { (b.hardwareId, b.token) }
  function AnyHardwareKeyOf(b: Binding): PairKey { (b.token, b.source) }
  function AnyKeyOf(b: Binding): string { b.token }

  function Get<K>(index: Index<K>, k: K): set<Binding> {
    if k in index then index[k] else {}
  }

  function Insert<K>(index: Index<K>, k: K, b: Binding): Index<K> {
    index[k := Get(index, k) + {b}]
  }

  /** Take the binding out of its bucket, and drop the bucket once it is empty. */
  function Remove<K>(index: Index<K>, k: K, b: Binding): Index<K> {
    if k !in index then index
    else if index[k] - {b} == {} then index - {k}
    else index[k := index[k] - {b}]
  }

  /** What a scan of the held keys would group: every bucket holds exactly the held keys with its
      key, and there are no empty buckets. */
  ghost function GroupBy<K(!new)>(held: set<Binding>, keyOf: Binding -> K): Index<K> {
    map k | k in KeysOf(held, keyOf) :: set b | b in held && keyOf(b) == k
  }

  ghost function KeysOf<K(!new)>(held: set<Binding>, keyOf: Binding -> K): set<K> {
    set b | b in held :: keyOf(b)
  }

  lemma InsertKeeps<K(!new)>(held: set<Binding>, keyOf: Binding -> K, b: Binding)
    ensures Insert(GroupBy(held, keyOf), keyOf(b), b) == GroupBy(held + {b}, keyOf)
  {
    var before, after := GroupBy(held, keyOf), GroupBy(held + {b}, keyOf);
    assert after.Keys == before.Keys + {keyOf(b)};
    forall k | k in after ensures after[k] == Insert(before, keyOf(b), b)[k] {
    }
  }

  lemma RemoveKeeps<K(!new)>(held: set<Binding>, keyOf: Binding -> K, b: Binding)
    requires b in held
    ensures Remove(GroupBy(held, keyOf), keyOf(b), b) == GroupBy(held - {b}, keyOf)
  {
    var before, after := GroupBy(held, keyOf), GroupBy(held - {b}, keyOf);
    var k := keyOf(b);
    assert b in before[k];
    assert before[k] - {b} == set x | x in held - {b} && keyOf(x) == k;
    if before[k] - {b} == {} {
      assert forall x | x in held - {b} :: keyOf(x) != k;
      assert after.Keys == before.Keys - {k};
    } else {
      var x :| x in before[k] - {b};
      assert keyOf(x) in after;
      assert after.Keys == before.Keys;
    }
    forall j | j in after ensures after[j] == Remove(before, k, b)[j] {
    }
  }

  lemma BucketIsScan<K(!new)>(held: set<Binding>, keyOf: Binding -> K, k: K)
    ensures Get(GroupBy(held, keyOf), k) == set b | b in held && keyOf(b) == k
  {
  }

  // ---- The four indexes together ----

  datatype Indexes = Indexes(full: Index<FullKey>, anySource: Index<PairKey>,
                             anyHardware: Index<PairKey>, any: Index<string>)

  const NO_INDEXES := Indexes(map[], map[], map[], map[])

  ghost function IndexesOf(held: set<Binding>): Indexes {
    Indexes(GroupBy(held, FullKeyOf), GroupBy(held, AnySourceKeyOf),
            GroupBy(held, AnyHardwareKeyOf), GroupBy(held, AnyKeyOf))
  }

  function AddKey(ix: Indexes, b: Binding): Indexes {
    Indexes(Insert(ix.full, FullKeyOf(b), b), Insert(ix.anySource, AnySourceKeyOf(b), b),
            Insert(ix.anyHardware, AnyHardwareKeyOf(b), b), Insert(ix.any, AnyKeyOf(b), b))
  }

  function TakeKey(ix: Indexes, b: Binding): Indexes {
    Indexes(Remove(ix.full, FullKeyOf(b), b), Remove(ix.anySource, AnySourceKeyOf(b), b),
            Remove(ix.anyHardware, AnyHardwareKeyOf(b), b), Remove(ix.any, AnyKeyOf(b), b))
  }

  lemma AddKeyKeeps(held: set<Binding>, b: Binding)
    ensures AddKey(IndexesOf(held), b) == IndexesOf(held + {b})
  {
    InsertKeeps(held, FullKeyOf, b);
    InsertKeeps(held, AnySourceKeyOf, b);
    InsertKeeps(held, AnyHardwareKeyOf, b);
    InsertKeeps(held, AnyKeyOf, b);
  }

  lemma TakeKeyKeeps(held: set<Binding>, b: Binding)
    requires b in held
    ensures TakeKey(IndexesOf(held), b) == IndexesOf(held - {b})
  {
    RemoveKeeps(held, FullKeyOf, b);
    RemoveKeeps(held, AnySourceKeyOf, b);
    RemoveKeeps(held, AnyHardwareKeyOf, b);
    RemoveKeeps(held, AnyKeyOf, b);
  }

  /** One access to the index that fits the wildcards of the expected binding. */
  function Find(ix: Indexes, expected: Binding): set<Binding> {
    if expected.hardwareId != "" && expected.source != "" then Get(ix.full, FullKeyOf(expected))
    else if expected.hardwareId != "" then Get(ix.anySource, AnySourceKeyOf(expected))
    else if expected.source != "" then Get(ix.anyHardware, AnyHardwareKeyOf(expected))
    else Get(ix.any, AnyKeyOf(expected))
  }

  /** One dictionary access finds exactly the held keys that match the expected binding. */
  lemma FindIsScan(held: set<Binding>, expected: Binding)
    ensures Find(IndexesOf(held), expected) == MatchingHeld(held, expected)
  {
    BucketIsScan(held, FullKeyOf, FullKeyOf(expected));
    BucketIsScan(held, AnySourceKeyOf, AnySourceKeyOf(expected));
    BucketIsScan(held, AnyHardwareKeyOf, AnyHardwareKeyOf(expected));
    BucketIsScan(held, AnyKeyOf, AnyKeyOf(expected));
  }
}
