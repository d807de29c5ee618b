/** Small vocabulary shared by every model: optional values, and tables or keys
    stored as a flat set of (owner, member) pairs. */
module Common {
  datatype Option<+T> = None | Some(value: T)

  // 2^53 - 1, the largest integer that every JSON reader keeps exact.
  const MAX_MESSAGE_ID := 9007199254740991

  newtype Int64 = x: int | -0x8000_0000_0000_0000 <= x < 0x8000_0000_0000_0000

  /** The members filed under one owner. */
  function Of(pairs: set<(int, int)>, owner: int): (members: set<int>)
    ensures forall x :: x in members <==> (owner, x) in pairs
  {
    set p | p in pairs && p.0 == owner :: p.1
  }

  /** Everything except one owner's pairs. */
  function Without(pairs: set<(int, int)>, owner: int): (rest: set<(int, int)>)
    ensures forall p :: p in rest <==> p in pairs && p.0 != owner
  {
    set p | p in pairs && p.0 != owner
  }

  /** The pairs that file each of `members` under `owner`. */
  function Filed(owner: int, members: set<int>): (pairs: set<(int, int)>)
    ensures forall x :: (owner, x) in pairs <==> x in members
    ensures forall p :: p in pairs ==> p.0 == owner
  {
    set x | x in members :: (owner, x)
  }

  /** One owner's rows of a table keyed by (owner, member). */
  function RowsOf<V>(table: map<(int, int), V>, owner: int): (rows: map<int, V>)
    ensures forall x :: x in rows <==> (owner, x) in table
    ensures forall x :: x in rows ==> rows[x] == table[(owner, x)]
  {
    map x | x in Of(table.Keys, owner) :: table[(owner, x)]
  }

  /** A table without one owner's rows. */
  function Drop<V>(table: map<(int, int), V>, owner: int): (rest: map<(int, int), V>)
    ensures forall k :: k in rest <==> k in table && k.0 != owner
    ensures forall k :: k in rest ==> rest[k] == table[k]
  {
    map k | k in table && k.0 != owner :: table[k]
  }

  lemma SubsetSize<T>(small: set<T>, big: set<T>)
    requires small <= big
    ensures |small| <= |big|
    ensures |small| == |big| ==> small == big
  {
    assert big == small + (big - small);
  }

  /** A set that is not empty has a member to pick. */
  lemma NonEmpty(s: set<int>)
    ensures s != {} ==> exists x :: x in s
  {
    if forall x :: x !in s { assert s == {}; }
  }

  lemma SameSet(a: set<int>, b: set<int>)
    requires forall x :: x in a <==> x in b
    ensures a == b
  {
    if forall x :: x in a <==> x in b { assert a == b; }
  }

  lemma SameMap<V>(a: map<int, V>, b: map<int, V>)
    requires forall x :: x in a <==> x in b
    requires forall x :: x in a && x in b ==> a[x] == b[x]
    ensures a == b
  {
    if (forall x :: x in a <==> x in b) && (forall x :: x in a && x in b ==> a[x] == b[x]) { assert a == b; }
  }
}
