/** The associable types of the tag category: `updateAssociatedTypes` is a canonical form. */
module AssociatedTypes {
  import opened Ordering

  const VIM25_PREFIX := "urn:vim25:"

  const REQUIRED_TYPES := ["StoragePod", "Datastore", "ResourcePool", "VirtualMachine", "Folder"]

  function Prefixed(t: string): string {
    if VIM25_PREFIX <= t then t else VIM25_PREFIX + t
  }

  ghost function PrefixedSet(types: seq<string>): set<string> { set t | t in types :: Prefixed(t) }

  method AppendPrefix(types: seq<string>) returns (r: seq<string>)
    ensures Sorted(r) && |r| == |types|
    ensures Elements(r) == PrefixedSet(types)
  {
    var appended := [];
    for i := 0 to |types|
      invariant |appended| == i && forall k :: 0 <= k < i ==> appended[k] == Prefixed(types[k])
    {
      appended := appended + [if VIM25_PREFIX <= types[i] then types[i] else VIM25_PREFIX + types[i]];
    }
    r := Sort(appended);
    assert |r| == |multiset(r)| == |types|;
    forall t ensures t in Elements(r) <==> t in PrefixedSet(types) {
      assert t in r <==> t in multiset(r);
      assert t in multiset(r) <==> t in appended;
      if t in PrefixedSet(types) {
        var k :| 0 <= k < |types| && Prefixed(types[k]) == t;
        assert appended[k] == t;
      }
    }
  }

  /** What a caller may rely on, without naming an algorithm. */
  ghost predicate Canonical(types: seq<string>, r: seq<string>) {
    StrictlySorted(r) && Elements(r) == PrefixedSet(types) + PrefixedSet(REQUIRED_TYPES)
  }

  method UpdateAssociatedTypes(types: seq<string>) returns (r: seq<string>)
    ensures Canonical(types, r)
  {
    var incoming := AppendPrefix(types);
    var required := AppendPrefix(REQUIRED_TYPES);
    r := SortedListing((set t | t in incoming) + (set t | t in required));
    assert (set t | t in incoming) == Elements(incoming) && (set t | t in required) == Elements(required);
  }

  /** Order, multiplicity and missing prefixes of the input do not matter. */
  lemma CanonicalIsUnique(types: seq<string>, types': seq<string>, r: seq<string>, r': seq<string>)
    requires Canonical(types, r) && Canonical(types', r')
    ensures r == r' <==>
              PrefixedSet(types) + PrefixedSet(REQUIRED_TYPES) == PrefixedSet(types') + PrefixedSet(REQUIRED_TYPES)
  {
    if Elements(r) == Elements(r') { SortedListingIsUnique(r, r'); }
  }

  /** Updating the updated list changes nothing. */
  lemma CanonicalIsIdempotent(types: seq<string>, r: seq<string>, r': seq<string>)
    requires Canonical(types, r) && Canonical(r, r')
    ensures r' == r
  {
    forall t | t in r ensures Prefixed(t) == t {
      assert t in Elements(r);
    }
    forall t ensures t in PrefixedSet(r) <==> t in Elements(r) {
      if t in Elements(r) { assert Prefixed(t) == t; }
    }
    SortedListingIsUnique(r, r');
  }
}
