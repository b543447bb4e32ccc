/** Storage hashers, named by the one-byte tag a StorageHasherV10 carries on the wire.
    Only which hasher is selected, and in what order, is modelled: the hash functions
    themselves are external. */
module Hashers {
  import opened Scale

  datatype Hasher = Blake2_128 | Blake2_256 | Blake2_128Concat | Twox128 | Twox256 | Twox64Concat | Identity

  type HasherTag = byte

  /** The 128-bit xxhash every legacy non-n-map entry ends its hasher list with. */
  const DefaultHasher: Hasher := Twox128

  function TagOf(h: Hasher): HasherTag {
    match h
    case Blake2_128 => 0
    case Blake2_256 => 1
    case Blake2_128Concat => 2
    case Twox128 => 3
    case Twox256 => 4
    case Twox64Concat => 5
    case Identity => 6
  }

  /** A recognised tag selects its hasher; any other tag has no hash function. */
  function HashFunc(tag: HasherTag): (r: Result<Hasher>)
    ensures r.Ok? <==> tag < 7
    ensures r.Ok? ==> TagOf(r.value) == tag
    ensures r.Err? ==> r.error == HasherNotSupported
  {
    if tag == 0 then Ok(Blake2_128)
    else if tag == 1 then Ok(Blake2_256)
    else if tag == 2 then Ok(Blake2_128Concat)
    else if tag == 3 then Ok(Twox128)
    else if tag == 4 then Ok(Twox256)
    else if tag == 5 then Ok(Twox64Concat)
    else if tag == 6 then Ok(Identity)
    else Err(HasherNotSupported)
  }

  lemma TagOfInjective(h: Hasher, g: Hasher)
    ensures TagOf(h) == TagOf(g) ==> h == g
  {
  }

  /** Resolves every declared tag, keeping the declared order; the first tag without a hash
      function fails the whole list. */
  function HashFuncs(tags: seq<HasherTag>): (r: Result<seq<Hasher>>)
    ensures r.Ok? <==> forall i :: 0 <= i < |tags| ==> tags[i] < 7
    ensures r.Ok? ==> |r.value| == |tags|
    ensures r.Ok? ==> forall i :: 0 <= i < |tags| ==> TagOf(r.value[i]) == tags[i]
    ensures r.Err? ==> r.error == HasherNotSupported
  {
    if |tags| == 0 then Ok([])
    else
      var h :- HashFunc(tags[0]);
      var hs :- HashFuncs(tags[1..]);
      Ok([h] + hs)
  }
}
