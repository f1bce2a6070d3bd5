/**
 * The database seeder: default rows created only when missing, fake users
 * and supplies filtered to unique names, fake requests drawn without
 * repeating a (user, supply) pair, and fake audit entries in time order.
 * Every random choice of the data generator is an input: `draw(k)` is what
 * it yields on the `k`-th occasion.
 */
module Seed {
  import opened Wrappers
  import opened Text
  import opened Domain
  import Ordering

  // Upserts that never update.

  /**
   * `upsert({ where: { key }, update: {}, create })` on one table: when a row
   * already has the key nothing happens; otherwise the row `build(id)` is
   * added under a new id, and the store fails (`None`) if that id is taken.
   */
  function Upsert<T>(table: map<Id, T>, rowKey: T -> string, key: string, build: Id -> T, id: Id): (r: Option<map<Id, T>>)
    ensures (exists k :: k in table && rowKey(table[k]) == key) ==> r == Some(table)
    ensures r.Some? ==> forall k :: k in table ==> k in r.value && r.value[k] == table[k]
    ensures !(exists k :: k in table && rowKey(table[k]) == key) ==>
      && (r.Some? <==> id !in table)
      && (r.Some? ==> r.value == table[id := build(id)])
  {
    if exists k :: k in table && rowKey(table[k]) == key then Some(table)
    else if id in table then None
    else Some(table[id := build(id)])
  }

  /** The seeds upserted one after another; the `i`-th new row gets id `newId(i)`. */
  function UpsertAll<S, T>(table: map<Id, T>, seeds: seq<S>, seedKey: S -> string, rowKey: T -> string,
                           build: (S, Id) -> T, newId: nat -> Id): Option<map<Id, T>>
  {
    if seeds == [] then Some(table)
    else
      var last := seeds[|seeds| - 1];
      match UpsertAll(table, seeds[..|seeds| - 1], seedKey, rowKey, build, newId)
      case None => None
      case Some(t) => Upsert(t, rowKey, seedKey(last), id => build(last, id), newId(|seeds| - 1))
  }

  /** Rows that were there before the seeding are never changed by it. */
  lemma {:induction false} UpsertAllKeepsRows<S, T>(table: map<Id, T>, seeds: seq<S>, seedKey: S -> string,
                                                    rowKey: T -> string, build: (S, Id) -> T, newId: nat -> Id)
    requires UpsertAll(table, seeds, seedKey, rowKey, build, newId).Some?
    ensures var t := UpsertAll(table, seeds, seedKey, rowKey, build, newId).value;
            forall k :: k in table ==> k in t && t[k] == table[k]
  {
    if seeds != [] {
      UpsertAllKeepsRows(table, seeds[..|seeds| - 1], seedKey, rowKey, build, newId);
    }
  }

  /** After the seeding every seed's key is present: found, or created with that key. */
  lemma {:induction false} UpsertAllCovers<S, T>(table: map<Id, T>, seeds: seq<S>, seedKey: S -> string,
                                                 rowKey: T -> string, build: (S, Id) -> T, newId: nat -> Id)
    requires forall s, id :: rowKey(build(s, id)) == seedKey(s)
    requires UpsertAll(table, seeds, seedKey, rowKey, build, newId).Some?
    ensures var t := UpsertAll(table, seeds, seedKey, rowKey, build, newId).value;
            forall i :: 0 <= i < |seeds| ==> exists k :: k in t && rowKey(t[k]) == seedKey(seeds[i])
  {
    if seeds != [] {
      var front := seeds[..|seeds| - 1];
      var t := UpsertAll(table, seeds, seedKey, rowKey, build, newId).value;
      var t' := UpsertAll(table, front, seedKey, rowKey, build, newId).value;
      UpsertAllCovers(table, front, seedKey, rowKey, build, newId);
      forall i | 0 <= i < |seeds| ensures exists k :: k in t && rowKey(t[k]) == seedKey(seeds[i]) {
        if i < |front| {
          assert seeds[i] == front[i];
          var k :| k in t' && rowKey(t'[k]) == seedKey(front[i]);
          assert k in t && t[k] == t'[k];
        } else {
          var last := seeds[|seeds| - 1];
          if !exists k :: k in t' && rowKey(t'[k]) == seedKey(last) {
            var id := newId(|seeds| - 1);
            assert id in t && t[id] == build(last, id);
          }
        }
      }
    }
  }

  /**
   * The upserting loops (`for (const user of …) await prisma.user.upsert(…)`):
   * stop at the first failure, and otherwise end where `UpsertAll` does.
   */
  method UpsertEach<S, T>(table: map<Id, T>, seeds: seq<S>, seedKey: S -> string, rowKey: T -> string,
                          build: (S, Id) -> T, newId: nat -> Id) returns (result: Option<map<Id, T>>)
    ensures result == UpsertAll(table, seeds, seedKey, rowKey, build, newId)
  {
    var current := table;
    for i := 0 to |seeds|
      invariant UpsertAll(table, seeds[..i], seedKey, rowKey, build, newId) == Some(current)
    {
      assert seeds[..i + 1][..i] == seeds[..i];
      var next := Upsert(current, rowKey, seedKey(seeds[i]), id => build(seeds[i], id), newId(i));
      if next.None? {
        assert UpsertAll(table, seeds[..i + 1], seedKey, rowKey, build, newId) == None;
        UpsertAllFails(table, seeds, seedKey, rowKey, build, newId, i + 1);
        assert seeds[..|seeds|] == seeds;
        return None;
      }
      current := next.value;
    }
    assert seeds[..|seeds|] == seeds;
    result := Some(current);
  }

  /** Once an upsert fails, the rest of the seeding does too. */
  lemma {:induction false} UpsertAllFails<S, T>(table: map<Id, T>, seeds: seq<S>, seedKey: S -> string,
                                               rowKey: T -> string, build: (S, Id) -> T, newId: nat -> Id, n: nat)
    requires n <= |seeds|
    requires UpsertAll(table, seeds[..n], seedKey, rowKey, build, newId).None?
    ensures UpsertAll(table, seeds, seedKey, rowKey, build, newId).None?
    decreases |seeds| - n
  {
    if n < |seeds| {
      assert seeds[..n + 1][..n] == seeds[..n];
      UpsertAllFails(table, seeds, seedKey, rowKey, build, newId, n + 1);
    } else {
      assert seeds[..n] == seeds;
    }
  }

  // Default and fake users.

  /** A user to be seeded, before its password is hashed. */
  datatype UserSeed = UserSeed(username: string, password: string, role: Role)

  const DefaultUsers: seq<UserSeed> := [UserSeed("admin", "admin123", ADMIN), UserSeed("staff1", "staff123", STAFF)]

  function SeedUsername(s: UserSeed): string { s.username }
  function Username(u: User): string { u.username }

  /** `upsert` by username: a new user gets the hash of the seed's password. */
  function SeedUsers(users: map<Id, User>, seeds: seq<UserSeed>, hash: string -> string, now: int,
                     newId: nat -> Id): Option<map<Id, User>>
  {
    UpsertAll(users, seeds, SeedUsername, Username, (s: UserSeed, id: Id) => User(id, s.username, hash(s.password), s.role, now), newId)
  }

  /** Seeding the default users into an empty table leaves an administrator named "admin". */
  lemma DefaultUsersGiveAdmin(hash: string -> string, now: int, newId: nat -> Id)
    requires SeedUsers(map[], DefaultUsers, hash, now, newId).Some?
    ensures var users := SeedUsers(map[], DefaultUsers, hash, now, newId).value;
            exists k :: k in users && users[k].username == "admin" && users[k].role == ADMIN
  {
    var build := (s: UserSeed, id: Id) => User(id, s.username, hash(s.password), s.role, now);
    var front := DefaultUsers[..1];
    assert front[..0] == [];
    assert DefaultUsers[..|DefaultUsers| - 1] == front;
    assert UpsertAll(map[], front[..0], SeedUsername, Username, build, newId) == Some(map[]);
    var one := UpsertAll(map[], front, SeedUsername, Username, build, newId);
    assert one.Some? && newId(0) in one.value && one.value[newId(0)] == build(DefaultUsers[0], newId(0));
  }

  /** A draw of the data generator for one fake user: a username and a role. */
  datatype UserDraw = UserDraw(username: string, role: Role)

  /** `createFakeUsers`' list: `count` users with lower-cased drawn names and the same password. */
  function FakeUsers(count: int, draw: nat -> UserDraw): (r: seq<UserSeed>)
    ensures |r| == if count > 0 then count else 0
    ensures forall i :: 0 <= i < |r| ==> r[i] == UserSeed(Lower(draw(i).username), "password123", draw(i).role)
  {
    seq(if count > 0 then count else 0, i requires 0 <= i => UserSeed(Lower(draw(i).username), "password123", draw(i).role))
  }

  // First occurrences.

  /** `self.findIndex(x => key(x) == k)`: the first position with the key, or -1. */
  function FindIndex<T>(s: seq<T>, key: T -> string, k: string): (i: int)
    ensures -1 <= i < |s|
    ensures i >= 0 ==> key(s[i]) == k && forall j :: 0 <= j < i ==> key(s[j]) != k
    ensures i == -1 ==> forall j :: 0 <= j < |s| ==> key(s[j]) != k
  {
    if s == [] then -1
    else if key(s[0]) == k then 0
    else
      var i := FindIndex(s[1..], key, k);
      if i == -1 then -1 else i + 1
  }

  /**
   * `s.filter((x, index, self) => index === self.findIndex(y => key(y) === key(x)))`
   * over the first `n` elements.
   */
  function FirstOccurrences<T>(s: seq<T>, key: T -> string, n: nat): seq<T>
    requires n <= |s|
  {
    if n == 0 then []
    else FirstOccurrences(s, key, n - 1) + (if FindIndex(s, key, key(s[n - 1])) == n - 1 then [s[n - 1]] else [])
  }

  function UniqueBy<T>(s: seq<T>, key: T -> string): seq<T> {
    FirstOccurrences(s, key, |s|)
  }

  /** The filter over the first `n` elements keeps at most `n` of them, and only those. */
  lemma {:induction false} FirstOccurrencesWithin<T>(s: seq<T>, key: T -> string, n: nat)
    requires n <= |s|
    ensures |FirstOccurrences(s, key, n)| <= n
    ensures forall x :: x in FirstOccurrences(s, key, n) ==> x in s[..n]
  {
    if n > 0 {
      FirstOccurrencesWithin(s, key, n - 1);
      assert s[..n] == s[..n - 1] + [s[n - 1]];
    }
  }

  /** No two elements share a key. */
  predicate DistinctKeys<T>(r: seq<T>, key: T -> string) {
    forall i, j :: 0 <= i < j < |r| ==> key(r[i]) != key(r[j])
  }

  /** The filter keeps each key at most once. */
  lemma {:induction false} FirstOccurrencesKeysDistinct<T>(s: seq<T>, key: T -> string, n: nat)
    requires n <= |s|
    ensures DistinctKeys(FirstOccurrences(s, key, n), key)
  {
    if n > 0 {
      FirstOccurrencesKeysDistinct(s, key, n - 1);
      var r' := FirstOccurrences(s, key, n - 1);
      var x := s[n - 1];
      if FindIndex(s, key, key(x)) == n - 1 {
        FirstOccurrencesWithin(s, key, n - 1);
        forall i | 0 <= i < |r'| ensures key(r'[i]) != key(x) {
          assert r'[i] in s[..n - 1];
          var j :| 0 <= j < n - 1 && s[j] == r'[i];
        }
        assert FirstOccurrences(s, key, n) == r' + [x];
      } else {
        assert FirstOccurrences(s, key, n) == r';
      }
    }
  }

  /** An element below `n` that is the first of its key is kept by the filter over the first `n`. */
  lemma {:induction false} FirstOccurrenceKept<T>(s: seq<T>, key: T -> string, n: nat, f: nat)
    requires f < n <= |s| && FindIndex(s, key, key(s[f])) == f
    ensures s[f] in FirstOccurrences(s, key, n)
  {
    var r' := FirstOccurrences(s, key, n - 1);
    if f == n - 1 {
      assert FirstOccurrences(s, key, n) == r' + [s[f]];
    } else {
      FirstOccurrenceKept(s, key, n - 1, f);
      assert FirstOccurrences(s, key, n) == r' + (if FindIndex(s, key, key(s[n - 1])) == n - 1 then [s[n - 1]] else []);
    }
  }

  /** For every key among the first `n` elements, the element where it first occurs is kept. */
  lemma FirstOccurrencesCovers<T>(s: seq<T>, key: T -> string, n: nat)
    requires n <= |s|
    ensures forall i :: 0 <= i < n ==> s[FindIndex(s, key, key(s[i]))] in FirstOccurrences(s, key, n)
  {
    forall i | 0 <= i < n ensures s[FindIndex(s, key, key(s[i]))] in FirstOccurrences(s, key, n) {
      var f := FindIndex(s, key, key(s[i]));
      assert 0 <= f <= i;
      assert FindIndex(s, key, key(s[f])) == f;
      FirstOccurrenceKept(s, key, n, f);
    }
  }

  /** `r` is `s` read at the strictly increasing positions `idx`. */
  ghost predicate PickedAt<T>(r: seq<T>, s: seq<T>, idx: seq<nat>) {
    && |idx| == |r|
    && (forall j :: 0 <= j < |idx| ==> idx[j] < |s| && r[j] == s[idx[j]])
    && (forall j, j' :: 0 <= j < j' < |idx| ==> idx[j] < idx[j'])
  }

  /** `r` is what remains of `s` after dropping some elements: the order is kept. */
  ghost predicate Subsequence<T>(r: seq<T>, s: seq<T>) {
    exists idx :: PickedAt(r, s, idx)
  }

  /** The positions the filter keeps among the first `n`. */
  ghost function KeptPositions<T>(s: seq<T>, key: T -> string, n: nat): seq<nat>
    requires n <= |s|
  {
    if n == 0 then []
    else KeptPositions(s, key, n - 1) + (if FindIndex(s, key, key(s[n - 1])) == n - 1 then [n - 1] else [])
  }

  /** The kept elements are read at increasing positions below `n`: the filter keeps the order of `s`. */
  lemma {:induction false} FirstOccurrencesOrdered<T>(s: seq<T>, key: T -> string, n: nat)
    requires n <= |s|
    ensures PickedAt(FirstOccurrences(s, key, n), s, KeptPositions(s, key, n))
    ensures forall j :: 0 <= j < |KeptPositions(s, key, n)| ==> KeptPositions(s, key, n)[j] < n
  {
    if n > 0 {
      FirstOccurrencesOrdered(s, key, n - 1);
    }
  }

  /**
   * What the filter keeps among the first `n` elements: elements of `s` only,
   * each key once, for every key there the element where it first occurs,
   * and in the order of `s`.
   */
  lemma FirstOccurrencesSpec<T>(s: seq<T>, key: T -> string, n: nat)
    requires n <= |s|
    ensures var r := FirstOccurrences(s, key, n);
      && |r| <= n
      && (forall x :: x in r ==> x in s[..n])
      && (forall i, j :: 0 <= i < j < |r| ==> key(r[i]) != key(r[j]))
      && (forall i :: 0 <= i < n ==> s[FindIndex(s, key, key(s[i]))] in r)
      && Subsequence(r, s[..n])
  {
    FirstOccurrencesWithin(s, key, n);
    FirstOccurrencesKeysDistinct(s, key, n);
    FirstOccurrencesCovers(s, key, n);
    FirstOccurrencesOrdered(s, key, n);
    assert PickedAt(FirstOccurrences(s, key, n), s[..n], KeptPositions(s, key, n));
  }

  /** The unique filter: a subsequence with distinct keys, keeping the first element of every key. */
  lemma UniqueBySpec<T>(s: seq<T>, key: T -> string)
    ensures var r := UniqueBy(s, key);
      && |r| <= |s|
      && (forall x :: x in r ==> x in s)
      && (forall i, j :: 0 <= i < j < |r| ==> key(r[i]) != key(r[j]))
      && (forall x :: x in s ==> exists y :: y in r && key(y) == key(x))
      && Subsequence(r, s)
  {
    var r := UniqueBy(s, key);
    assert s[..|s|] == s;
    FirstOccurrencesWithin(s, key, |s|);
    FirstOccurrencesKeysDistinct(s, key, |s|);
    FirstOccurrencesCovers(s, key, |s|);
    FirstOccurrencesOrdered(s, key, |s|);
    assert PickedAt(r, s, KeptPositions(s, key, |s|));
    forall x | x in s ensures exists y :: y in r && key(y) == key(x) {
      var i :| 0 <= i < |s| && s[i] == x;
      var f := FindIndex(s, key, key(s[i]));
      assert s[f] in r && key(s[f]) == key(x);
    }
  }

  /** A list whose keys are already distinct passes the filter unchanged. */
  lemma {:induction false} FirstOccurrencesDistinct<T>(s: seq<T>, key: T -> string, n: nat)
    requires n <= |s|
    requires forall i, j :: 0 <= i < j < |s| ==> key(s[i]) != key(s[j])
    ensures FirstOccurrences(s, key, n) == s[..n]
  {
    if n > 0 {
      FirstOccurrencesDistinct(s, key, n - 1);
      assert s[..n] == s[..n - 1] + [s[n - 1]];
    }
  }

  // Default and fake supplies.

  /** A supply to be seeded. */
  datatype SupplySeed = SupplySeed(name: string, description: string, quantity: int, minimumThreshold: int)

  const DefaultSupplies: seq<SupplySeed> := [
    SupplySeed("Printer Paper", "A4 white printer paper, 500 sheets per ream", 50, 10),
    SupplySeed("Ballpoint Pens", "Blue ink ballpoint pens", 100, 20),
    SupplySeed("Sticky Notes", "3x3 inch yellow sticky notes, 100 sheets per pad", 30, 5)
  ]

  const OfficeSupplies: seq<string> := [
    "Stapler", "Paper Clips", "Folders", "Notebooks", "Markers", "Highlighters", "Envelopes",
    "Binders", "Scissors", "Tape", "Calculator", "Rubber Bands", "Index Cards", "Labels", "Pencils"
  ]

  function SeedName(s: SupplySeed): string { s.name }
  function SupplyName(s: Supply): string { s.name }

  /** `upsert` by name: a new supply gets the seed's fields. */
  function SeedSupplies(supplies: map<Id, Supply>, seeds: seq<SupplySeed>, newId: nat -> Id): Option<map<Id, Supply>>
  {
    UpsertAll(supplies, seeds, SeedName, SupplyName,
              (s: SupplySeed, id: Id) => Supply(id, s.name, s.description, s.quantity, s.minimumThreshold), newId)
  }

  /**
   * One draw of the data generator for a fake supply. Number draws are
   * arbitrary integers, brought into the range asked for by `%`.
   */
  datatype SupplyDraw = SupplyDraw(adjective: string, product: string, description: string, quantity: int, threshold: int)

  /** `createFakeSupplies`' name for position `i`: the fixed list first, then drawn names. */
  function FakeSupplyName(i: nat, draw: nat -> SupplyDraw): (name: string)
    ensures i < |OfficeSupplies| ==> name == OfficeSupplies[i]
    ensures i >= |OfficeSupplies| ==> name == draw(i).adjective + " " + draw(i).product
  {
    if i < |OfficeSupplies| then OfficeSupplies[i] else draw(i).adjective + " " + draw(i).product
  }

  /** `createFakeSupplies`' list, before the unique-name filter: stock in [0, 100], threshold in [5, 20]. */
  function FakeSupplies(count: int, draw: nat -> SupplyDraw): (r: seq<SupplySeed>)
    ensures |r| == if count > 0 then count else 0
    ensures forall i :: 0 <= i < |r| ==> r[i].name == FakeSupplyName(i, draw)
    ensures forall i :: 0 <= i < |r| ==> 0 <= r[i].quantity <= 100 && 5 <= r[i].minimumThreshold <= 20
  {
    seq(if count > 0 then count else 0, i requires 0 <= i =>
      SupplySeed(FakeSupplyName(i, draw), draw(i).description, draw(i).quantity % 101, 5 + draw(i).threshold % 16))
  }

  /** The fixed names are distinct. */
  lemma OfficeSuppliesDistinct()
    ensures forall i, j :: 0 <= i < j < |OfficeSupplies| ==> OfficeSupplies[i] != OfficeSupplies[j]
  {
  }

  /** Up to fifteen fake supplies, the unique-name filter keeps them all. */
  lemma FewFakeSuppliesAllKept(count: int, draw: nat -> SupplyDraw)
    requires count <= |OfficeSupplies|
    ensures UniqueBy(FakeSupplies(count, draw), SeedName) == FakeSupplies(count, draw)
  {
    var s := FakeSupplies(count, draw);
    OfficeSuppliesDistinct();
    FirstOccurrencesDistinct(s, SeedName, |s|);
    assert s[..|s|] == s;
  }

  // Fake requests.

  /** A (user, supply) combination. */
  datatype Pair = Pair(userId: Id, supplyId: Id)

  /** One draw for a fake request: positions in the user and supply lists, a quantity and a status. */
  datatype RequestDraw = RequestDraw(user: nat, supply: nat, quantity: int, status: Status)

  datatype FakeRequest = FakeRequest(userId: Id, supplyId: Id, quantity: int, status: Status)

  function PairOf(r: FakeRequest): Pair {
    Pair(r.userId, r.supplyId)
  }

  /** `requests.some(r => r.userId === userId && r.supplyId === supplyId)`. */
  predicate Made(requests: seq<FakeRequest>, p: Pair) {
    exists r :: r in requests && PairOf(r) == p
  }

  /** The user and supply of a draw: positions taken modulo the lengths of the lists. */
  function PairDrawn(users: seq<Id>, supplies: seq<Id>, d: RequestDraw): Pair
    requires users != [] && supplies != []
  {
    Pair(users[d.user % |users|], supplies[d.supply % |supplies|])
  }

  /** The request made from a draw: its pair, a quantity in [1, 10] and the drawn status. */
  function RequestDrawn(users: seq<Id>, supplies: seq<Id>, d: RequestDraw): (r: FakeRequest)
    requires users != [] && supplies != []
    ensures PairOf(r) == PairDrawn(users, supplies, d) && 1 <= r.quantity <= 10
  {
    FakeRequest(users[d.user % |users|], supplies[d.supply % |supplies|], 1 + d.quantity % 10, d.status)
  }

  /**
   * The requests made by the first `k` attempts: an attempt adds the request
   * of its draw exactly when neither an existing request nor an earlier
   * generated one has that pair.
   */
  function Generated(users: seq<Id>, supplies: seq<Id>, existing: seq<Pair>, draw: nat -> RequestDraw, k: nat)
    : seq<FakeRequest>
    requires users != [] && supplies != []
  {
    if k == 0 then []
    else
      var before := Generated(users, supplies, existing, draw, k - 1);
      var pair := PairDrawn(users, supplies, draw(k - 1));
      if pair in existing || Made(before, pair) then before
      else before + [RequestDrawn(users, supplies, draw(k - 1))]
  }

  /** After the attempts, every drawn pair is taken, by an existing request or a generated one. */
  lemma {:induction false} GeneratedTakesDrawn(users: seq<Id>, supplies: seq<Id>, existing: seq<Pair>,
                                               draw: nat -> RequestDraw, k: nat)
    requires users != [] && supplies != []
    ensures var r := Generated(users, supplies, existing, draw, k);
      forall a :: 0 <= a < k ==>
        PairDrawn(users, supplies, draw(a)) in existing || Made(r, PairDrawn(users, supplies, draw(a)))
  {
    if k > 0 {
      GeneratedTakesDrawn(users, supplies, existing, draw, k - 1);
      var before := Generated(users, supplies, existing, draw, k - 1);
      var r := Generated(users, supplies, existing, draw, k);
      var pair := PairDrawn(users, supplies, draw(k - 1));
      if !(pair in existing || Made(before, pair)) {
        var req := RequestDrawn(users, supplies, draw(k - 1));
        assert r == before + [req];
        forall a | 0 <= a < k && PairDrawn(users, supplies, draw(a)) !in existing
          ensures Made(r, PairDrawn(users, supplies, draw(a)))
        {
          if a < k - 1 {
            var x :| x in before && PairOf(x) == PairDrawn(users, supplies, draw(a));
            assert x in r;
          } else {
            assert r[|r| - 1] == req;
          }
        }
      }
    }
  }

  /** Every generated request is the request of an earlier draw, with a pair that is new and not generated twice. */
  lemma {:induction false} GeneratedFromDraws(users: seq<Id>, supplies: seq<Id>, existing: seq<Pair>,
                                              draw: nat -> RequestDraw, k: nat)
    requires users != [] && supplies != []
    ensures var r := Generated(users, supplies, existing, draw, k);
      && |r| <= k
      && (forall i :: 0 <= i < |r| ==> exists a :: 0 <= a < k && r[i] == RequestDrawn(users, supplies, draw(a)))
      && (forall i :: 0 <= i < |r| ==> PairOf(r[i]) !in existing)
      && (forall i, j :: 0 <= i < j < |r| ==> PairOf(r[i]) != PairOf(r[j]))
  {
    if k > 0 {
      GeneratedFromDraws(users, supplies, existing, draw, k - 1);
      var before := Generated(users, supplies, existing, draw, k - 1);
      var r := Generated(users, supplies, existing, draw, k);
      var pair := PairDrawn(users, supplies, draw(k - 1));
      if !(pair in existing || Made(before, pair)) {
        forall i | 0 <= i < |before| ensures PairOf(before[i]) != pair {
          assert before[i] in before;
        }
        assert r == before + [RequestDrawn(users, supplies, draw(k - 1))];
      }
    }
  }

  /**
   * What the attempts make: every drawn pair ends up taken, by an existing
   * request or a generated one; every generated request is the request of
   * some draw; no pair is generated twice or clashes with an existing one.
   */
  lemma GeneratedSpec(users: seq<Id>, supplies: seq<Id>, existing: seq<Pair>,
                      draw: nat -> RequestDraw, k: nat)
    requires users != [] && supplies != []
    ensures var r := Generated(users, supplies, existing, draw, k);
      && |r| <= k
      && (forall a :: 0 <= a < k ==>
            PairDrawn(users, supplies, draw(a)) in existing || Made(r, PairDrawn(users, supplies, draw(a))))
      && (forall i :: 0 <= i < |r| ==> exists a :: 0 <= a < k && r[i] == RequestDrawn(users, supplies, draw(a)))
      && (forall i :: 0 <= i < |r| ==> PairOf(r[i]) !in existing)
      && (forall i, j :: 0 <= i < j < |r| ==> PairOf(r[i]) != PairOf(r[j]))
  {
    GeneratedTakesDrawn(users, supplies, existing, draw, k);
    GeneratedFromDraws(users, supplies, existing, draw, k);
  }

  /**
   * `createFakeRequests`: nothing without users or supplies; otherwise
   * attempts are made while fewer than `count` requests exist and fewer
   * than `count * 2` attempts were made, and the requests are those the
   * attempts generate.
   */
  method CreateFakeRequests(users: seq<Id>, supplies: seq<Id>, existing: seq<Pair>, count: int,
                            draw: nat -> RequestDraw) returns (requests: seq<FakeRequest>, attempts: nat)
    ensures users == [] || supplies == [] ==> requests == [] && attempts == 0
    ensures attempts <= if count > 0 then 2 * count else 0
    ensures count <= 0 ==> requests == []
    ensures count > 0 ==> |requests| <= count
    ensures users != [] && supplies != [] ==>
      && requests == Generated(users, supplies, existing, draw, attempts)
      && (forall a :: 0 <= a < attempts ==> |Generated(users, supplies, existing, draw, a)| < count)
      && (|requests| >= count || attempts >= 2 * count)
  {
    requests := [];
    attempts := 0;
    if |users| == 0 || |supplies| == 0 {
      return;
    }
    var maxAttempts := count * 2;
    while |requests| < count && attempts < maxAttempts
      invariant attempts <= if count > 0 then 2 * count else 0
      invariant requests == Generated(users, supplies, existing, draw, attempts)
      invariant count > 0 ==> |requests| <= count
      invariant count <= 0 ==> requests == []
      invariant forall a :: 0 <= a < attempts ==> |Generated(users, supplies, existing, draw, a)| < count
      decreases maxAttempts - attempts
    {
      var d := draw(attempts);
      var userId := users[d.user % |users|];
      var supplyId := supplies[d.supply % |supplies|];
      var pair := Pair(userId, supplyId);
      var exists_ := pair in existing || Made(requests, pair);
      if !exists_ {
        var request := FakeRequest(userId, supplyId, 1 + d.quantity % 10, d.status);
        requests := requests + [request];
      }
      attempts := attempts + 1;
    }
  }

  /**
   * The requests `createFakeRequests` makes: at most one per attempt, each
   * the request of one of the draws, with distinct new pairs of known users
   * and supplies and quantities in [1, 10]; every drawn pair is taken
   * afterwards.
   */
  lemma CreateFakeRequestsSpec(users: seq<Id>, supplies: seq<Id>, existing: seq<Pair>, draw: nat -> RequestDraw,
                               attempts: nat)
    requires users != [] && supplies != []
    ensures var r := Generated(users, supplies, existing, draw, attempts);
      && |r| <= attempts
      && (forall a :: 0 <= a < attempts ==>
            PairDrawn(users, supplies, draw(a)) in existing || Made(r, PairDrawn(users, supplies, draw(a))))
      && (forall i :: 0 <= i < |r| ==>
            && r[i].userId in users && r[i].supplyId in supplies && 1 <= r[i].quantity <= 10
            && PairOf(r[i]) !in existing
            && exists a :: 0 <= a < attempts && r[i] == RequestDrawn(users, supplies, draw(a)))
      && (forall i, j :: 0 <= i < j < |r| ==> PairOf(r[i]) != PairOf(r[j]))
  {
    GeneratedSpec(users, supplies, existing, draw, attempts);
  }

  // Fake audit entries.

  /** A fake audit entry; `timestamp` is milliseconds since the epoch. */
  datatype FakeLog = FakeLog(userId: Id, action: string, timestamp: int)

  function ByTimestamp(a: FakeLog, b: FakeLog): bool {
    a.timestamp <= b.timestamp
  }

  /** `logs.sort((a, b) => a.timestamp - b.timestamp)`. */
  function SortLogs(logs: seq<FakeLog>): seq<FakeLog> {
    Ordering.SortBy(logs, ByTimestamp)
  }

  /** The entries are inserted oldest first, and they are the generated ones. */
  lemma SortLogsSpec(logs: seq<FakeLog>)
    ensures var sorted := SortLogs(logs);
      && multiset(sorted) == multiset(logs)
      && forall i, j :: 0 <= i < j < |sorted| ==> sorted[i].timestamp <= sorted[j].timestamp
  {
    assert Ordering.TotalPreorder(ByTimestamp);
    Ordering.SortBySorted(logs, ByTimestamp);
  }
}
