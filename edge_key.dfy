/**
 * EdgeKey: the unordered pair of dot ids that identifies an edge, stored with
 * the smaller id first, with value equality, a 32-bit hash and a tag string.
 */
module EdgeKeys {
  import opened Common
  import Tags

  /** The value a key is compared with in `Equals(object)`. */
  datatype Obj = KeyObj(key: EdgeKey) | OtherObj | NullObj

  datatype EdgeKey = EdgeKey(Id1: Int32, Id2: Int32) {

    /** The shape every key built by the constructor has. */
    predicate Normalized()
    {
      Id1 <= Id2
    }

    /** `Equals(EdgeKey)`: field-wise, hence exactly value equality. */
    predicate Equals(other: EdgeKey)
      ensures Equals(other) <==> this == other
    {
      Id1 == other.Id1 && Id2 == other.Id2
    }

    /** `Equals(object)`: true only for a boxed EdgeKey with equal fields. */
    predicate EqualsObject(obj: Obj)
      ensures EqualsObject(obj) <==> obj == KeyObj(this)
    {
      obj.KeyObj? && Equals(obj.key)
    }

    /** `(Id1 * 397) ^ Id2` computed in unchecked 32-bit arithmetic. */
    function GetHashCode(): (h: Int32)
      ensures ToBits(h) == (ToBits(Id1) * 397) ^ ToBits(Id2)
    {
      BitsRoundTrip((ToBits(Id1) * 397) ^ ToBits(Id2));
      FromBits((ToBits(Id1) * 397) ^ ToBits(Id2))
    }

    /** `$"{Id1},{Id2}"`. */
    function ToString(): (s: string)
      ensures Tags.Split(s) == [Tags.IntToString(Id1 as int), Tags.IntToString(Id2 as int)]
    {
      Tags.SplitTag(Id1 as int, Id2 as int);
      Tags.Tag(Id1 as int, Id2 as int)
    }
  }

  /** The EdgeKey constructor: the smaller id goes first. */
  function NewEdgeKey(id1: Int32, id2: Int32): (k: EdgeKey)
    ensures k.Normalized()
    ensures multiset{k.Id1, k.Id2} == multiset{id1, id2}
  {
    if id1 < id2 then EdgeKey(id1, id2) else EdgeKey(id2, id1)
  }

  /** Two's-complement bits of a C# int. */
  function ToBits(x: Int32): bv32
  {
    if x < 0 then (x as int + 0x1_0000_0000) as bv32 else x as int as bv32
  }

  /** The C# int whose two's-complement bits are `b`. */
  function FromBits(b: bv32): Int32
  {
    if b < 0x8000_0000 then b as int as Int32 else (b as int - 0x1_0000_0000) as Int32
  }

  lemma BitsRoundTrip(b: bv32)
    ensures ToBits(FromBits(b)) == b
  {
  }

  /** The key does not depend on the order the two ids are given in. */
  lemma KeyIsUnordered(a: Int32, b: Int32)
    ensures NewEdgeKey(a, b) == NewEdgeKey(b, a)
  {
  }

  /** Two constructed keys are equal exactly when they were built from the same id pair. */
  lemma KeysEqualIffSamePair(a: Int32, b: Int32, c: Int32, d: Int32)
    ensures NewEdgeKey(a, b).Equals(NewEdgeKey(c, d)) <==> multiset{a, b} == multiset{c, d}
  {
    var k1, k2 := NewEdgeKey(a, b), NewEdgeKey(c, d);
    if multiset{a, b} == multiset{c, d} {
      assert multiset{k1.Id1, k1.Id2} == multiset{k2.Id1, k2.Id2};
      assert k1.Id1 in multiset{k2.Id1, k2.Id2};
      assert k2.Id1 in multiset{k1.Id1, k1.Id2};
    }
  }

  /** Equals is an equivalence relation. */
  lemma EqualsIsEquivalence(a: EdgeKey, b: EdgeKey, c: EdgeKey)
    ensures a.Equals(a)
    ensures a.Equals(b) ==> b.Equals(a)
    ensures a.Equals(b) && b.Equals(c) ==> a.Equals(c)
  {
  }

  /** Equal keys hash alike, as a dictionary keyed by EdgeKey needs. */
  lemma EqualKeysEqualHashes(a: EdgeKey, b: EdgeKey)
    ensures a.Equals(b) ==> a.GetHashCode() == b.GetHashCode()
  {
  }

  /** Different keys print differently: the string names the key. */
  lemma ToStringInjective(a: EdgeKey, b: EdgeKey)
    ensures a.ToString() == b.ToString() <==> a == b
  {
    Tags.TagInjective(a.Id1 as int, a.Id2 as int, b.Id1 as int, b.Id2 as int);
  }

  /** A constructed key prints the smaller id first. */
  lemma ToStringSmallerFirst(a: Int32, b: Int32)
    ensures NewEdgeKey(a, b).ToString() == Tags.Tag(if a < b then a as int else b as int, if a < b then b as int else a as int)
  {
  }
}
