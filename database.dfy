/**
 * The example application's in-memory database: a table of users with an id
 * allocator, and a table of secret keys by user id that is read and written
 * in place. Both operations report through a node-style callback; here the
 * callback's arguments are the method's results.
 */
module ExampleDatabase {
  import opened JsValues

  datatype User = User(id: int, username: string, password: string, email: string)

  /** The two users the table starts with. */
  const SeedUsers: seq<User> := [
    User(1, "bob", "secret", "bob@example.com"),
    User(2, "joe", "birthday", "joe@example.com")
  ]

  /** `users.map(user => user.id)`. */
  function Ids(users: seq<User>): (ids: seq<int>)
    ensures |ids| == |users|
    ensures forall k :: 0 <= k < |users| ==> ids[k] == users[k].id
  {
    if users == [] then [] else [users[0].id] + Ids(users[1..])
  }

  /** `id` is the least positive integer that is not an id of `ids`. */
  predicate LeastFreeId(ids: seq<int>, id: int) {
    1 <= id && id !in ids && forall k :: 1 <= k < id ==> k in ids
  }

  /** There is only one least free id. */
  lemma LeastFreeIdUnique(ids: seq<int>, a: int, b: int)
    requires LeastFreeId(ids, a) && LeastFreeId(ids, b)
    ensures a == b
  {
  }

  /** The integers 1 to n. */
  function Interval(n: nat): (r: set<int>)
    ensures forall k :: k in r <==> 1 <= k <= n
  {
    if n == 0 then {} else Interval(n - 1) + {n}
  }

  /** The integers 1 to n form a set of n elements. */
  lemma {:induction false} IntervalCard(n: nat)
    ensures |Interval(n)| == n
  {
    if n > 0 {
      var below := Interval(n - 1);
      IntervalCard(n - 1);
      assert n !in below;
      assert Interval(n) == below + {n};
      assert |below + {n}| == |below| + 1;
    }
  }

  /** A sequence has at most as many distinct elements as it has positions. */
  lemma {:induction false} SeqSetCard(s: seq<int>)
    ensures |set x | x in s| <= |s|
  {
    if s != [] {
      SeqSetCard(s[1..]);
      assert (set x | x in s) == (set x | x in s[1..]) + {s[0]};
    }
  }

  /** A subset has at most as many elements as its superset. */
  lemma SubsetCard(a: set<int>, b: set<int>)
    requires a <= b
    ensures |a| <= |b|
  {
    var rest := b - a;
    assert a + rest == b;
    assert a * rest == {};
    assert |a + rest| + |a * rest| == |a| + |rest|;
  }

  /** If 1 to n all occur in a sequence, the sequence has at least n positions. */
  lemma CoveredPrefixBound(s: seq<int>, n: nat)
    requires forall k :: 1 <= k <= n ==> k in s
    ensures n <= |s|
  {
    IntervalCard(n);
    SeqSetCard(s);
    SubsetCard(Interval(n), set x | x in s);
  }

  /** The database: the `users` array and the `keys` object of the module. */
  class Database {
    var users: seq<User>
    var keys: map<int, JsVal>

    /** The state at start-up: bob and joe, and no keys. */
    constructor ()
      ensures users == SeedUsers && keys == map[]
    {
      users := SeedUsers;
      keys := map[];
    }

    /**
     * `getNextUserId()`: counts up from 1 until an id no user has; the loop
     * runs at most |users| + 1 rounds.
     */
    method NextUserId() returns (id: int)
      ensures LeastFreeId(Ids(users), id)
      ensures id <= |users| + 1
    {
      var curIds := Ids(users);
      id := 1;
      while id in curIds
        invariant 1 <= id <= |curIds| + 1
        invariant forall k :: 1 <= k < id ==> k in curIds
        decreases |curIds| + 1 - id
      {
        CoveredPrefixBound(curIds, id);
        id := id + 1;
      }
    }

    /** `findKeyForUserId(id, fn)`: `fn(null, keys[id])`. Reading changes nothing. */
    method FindKeyForUserId(id: int) returns (err: JsVal, key: JsVal)
      ensures err == Null
      ensures id in keys ==> key == keys[id]
      ensures id !in keys ==> key == Undefined
    {
      err := Null;
      key := KeyIn(keys, id);
    }

    /** `saveKeyForUserId(id, key, fn)`: `keys[id] = key; fn(null)`. */
    method SaveKeyForUserId(id: int, key: JsVal) returns (err: JsVal)
      modifies this`keys
      ensures err == Null
      ensures keys == old(keys)[id := key]
    {
      keys := keys[id := key];
      err := Null;
    }
  }

  /** `keys[id]` on a key table: the key saved for a user id, `undefined` if none. */
  function KeyIn(keys: map<int, JsVal>, id: int): JsVal {
    if id in keys then keys[id] else Undefined
  }

  /** After saving a key for an id, reading that id gives the key and every other id reads as before. */
  lemma SaveThenFind(keys: map<int, JsVal>, id: int, key: JsVal, other: int)
    ensures KeyIn(keys[id := key], id) == key
    ensures other != id ==> KeyIn(keys[id := key], other) == KeyIn(keys, other)
  {
  }

  /** With the seeded users (ids 1 and 2), the next id is 3. */
  method SeededNextUserId() returns (id: int)
    ensures id == 3
  {
    var db := new Database();
    id := db.NextUserId();
    assert Ids(SeedUsers) == [1, 2];
    assert 1 in Ids(SeedUsers) && 2 in Ids(SeedUsers);
    LeastFreeIdUnique(Ids(SeedUsers), id, 3);
  }
}
