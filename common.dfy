/** Shared vocabulary of the backend and the client: identifiers, the outcomes a
    request handler answers with, and the list operations the handlers and the
    pages apply to membership and tag lists. */
module Common {

  /** A user's identifier. Only equality is ever used on it; it is a string so
      that names derived from it (the certificate file name) can be written. */
  type UserId = string

  /** An event's identifier, issued by the event store and referred to by
      impact records. */
  type EventId = nat

  datatype Option<+T> = None | Some(value: T) {
    /** The value, or `default` when absent (a schema default, say). */
    function GetOr(default: T): T {
      match this
      case Some(v) => v
      case None => default
    }
  }

  /** The failure responses of the handlers: 404, 403 and 400. */
  datatype Failure = NotFound | Forbidden | BadRequest

  /** A handler's answer when it returns a value on success. */
  datatype Result<+T> = Ok(value: T) | Err(failure: Failure)

  /** A handler's answer when success carries only a message. */
  datatype Outcome = Done | Fail(failure: Failure)

  /** No element occurs twice. */
  ghost predicate NoDup<T>(s: seq<T>) {
    forall i, j :: 0 <= i < j < |s| ==> s[i] != s[j]
  }

  /** `r` can be obtained from `s` by deleting elements, the rest keeping
      their order (greedy matching, which finds an embedding whenever one
      exists). */
  predicate IsSubsequence<T(==)>(r: seq<T>, s: seq<T>)
    decreases |s|
  {
    if r == [] then true
    else if s == [] then false
    else if r[0] == s[0] then IsSubsequence(r[1..], s[1..])
    else IsSubsequence(r, s[1..])
  }

  /** `Array.prototype.filter`: the elements satisfying `p`, in their order. */
  function Filter<T(==,!new)>(p: T -> bool, s: seq<T>): (r: seq<T>)
    ensures |r| <= |s|
  {
    if s == [] then []
    else if p(s[0]) then [s[0]] + Filter(p, s[1..]) else Filter(p, s[1..])
  }

  /** The filtered list is a subsequence of the input. */
  lemma {:induction false} FilterIsSubsequence<T(!new)>(p: T -> bool, s: seq<T>)
    ensures IsSubsequence(Filter(p, s), s)
  {
    if s != [] {
      FilterIsSubsequence(p, s[1..]);
      FilterMembers(p, s[1..]);
      var r := Filter(p, s);
      if p(s[0]) {
        assert r[0] == s[0] && r[1..] == Filter(p, s[1..]);
      } else if r != [] {
        assert r[0] in Filter(p, s[1..]);
      }
    }
  }

  /** Each element passing `p` is kept as often as it occurs, each other
      element is dropped. */
  lemma {:induction false} FilterCount<T(!new)>(p: T -> bool, s: seq<T>)
    ensures forall x :: multiset(Filter(p, s))[x] == if p(x) then multiset(s)[x] else 0
  {
    if s != [] {
      FilterCount(p, s[1..]);
      assert s == [s[0]] + s[1..];
    }
  }

  /** The filtered list holds exactly the elements of the input passing `p`. */
  lemma FilterMembers<T(!new)>(p: T -> bool, s: seq<T>)
    ensures forall x :: x in Filter(p, s) <==> x in s && p(x)
  {
    FilterCount(p, s);
    forall x ensures x in Filter(p, s) <==> x in s && p(x) {
      assert x in Filter(p, s) <==> multiset(Filter(p, s))[x] > 0;
      assert x in s <==> multiset(s)[x] > 0;
    }
  }

  /** Filtering a list whose every element passes changes nothing. */
  lemma {:induction false} FilterKeepsAll<T(!new)>(p: T -> bool, s: seq<T>)
    ensures (forall x :: x in s ==> p(x)) ==> Filter(p, s) == s
  {
    if s != [] && forall x :: x in s ==> p(x) {
      FilterKeepsAll(p, s[1..]);
    }
  }

  /** Filtering distributes over concatenation. */
  lemma {:induction false} FilterAppend<T(!new)>(p: T -> bool, a: seq<T>, b: seq<T>)
    ensures Filter(p, a + b) == Filter(p, a) + Filter(p, b)
  {
    if a == [] {
      assert a + b == b;
    } else {
      assert (a + b)[1..] == a[1..] + b;
      FilterAppend(p, a[1..], b);
    }
  }

  /** Filtering twice with the same predicate is filtering once. */
  lemma FilterIdempotent<T(!new)>(p: T -> bool, s: seq<T>)
    ensures Filter(p, Filter(p, s)) == Filter(p, s)
  {
    FilterMembers(p, s);
    FilterKeepsAll(p, Filter(p, s));
  }

  /** Filtering never introduces a duplicate. */
  lemma {:induction false} FilterNoDup<T(!new)>(p: T -> bool, s: seq<T>)
    ensures NoDup(s) ==> NoDup(Filter(p, s))
  {
    if s != [] && NoDup(s) {
      FilterNoDup(p, s[1..]);
      FilterMembers(p, s[1..]);
      var rest := Filter(p, s[1..]);
      if p(s[0]) {
        assert s[0] !in s[1..];
        assert s[0] !in rest;
        var r := [s[0]] + rest;
        forall i, j | 0 <= i < j < |r| ensures r[i] != r[j] {
          if i > 0 {
            assert r[i] == rest[i - 1] && r[j] == rest[j - 1];
          } else {
            assert r[j] in rest;
          }
        }
      }
    }
  }

  /** The query object of a listing handler: field name to required value. */
  type Query = map<string, string>

  /** `if (value) query[key] = value`: a filter that was not supplied (the
      empty string) adds nothing to the query. */
  function AddIfSupplied(q: Query, key: string, value: string): (r: Query)
    ensures forall k :: k in r <==> k in q || (k == key && value != [])
    ensures forall k :: k in r ==> r[k] == if k == key && value != [] then value else q[k]
  {
    if value == [] then q else q[key := value]
  }

  /** A document with text fields `doc` satisfies `q` when it has every
      field the query names, with the required value. */
  function Satisfies(doc: map<string, string>, q: Query): (b: bool)
    ensures b <==> doc + q == doc
    ensures q == map[] ==> b
  {
    assert doc + q == doc ==> forall k :: k in q ==> k in doc && doc[k] == q[k] by {
      if doc + q == doc {
        forall k | k in q ensures k in doc && doc[k] == q[k] {
          assert (doc + q)[k] == q[k];
        }
      }
    }
    forall k :: k in q ==> k in doc && doc[k] == q[k]
  }

  /** A query built from two optional filters on two different fields of
      `doc` asks each supplied filter to equal its field, and no more. */
  lemma SatisfiesTwoFilters(doc: map<string, string>, k1: string, v1: string, k2: string, v2: string)
    requires k1 != k2 && k1 in doc && k2 in doc
    ensures Satisfies(doc, AddIfSupplied(AddIfSupplied(map[], k1, v1), k2, v2)) <==>
              (v1 == [] || doc[k1] == v1) && (v2 == [] || doc[k2] == v2)
  {
    var q1 := AddIfSupplied(map[], k1, v1);
    var q := AddIfSupplied(q1, k2, v2);
    assert v1 != [] ==> k1 in q && q[k1] == v1;
    assert v2 != [] ==> k2 in q && q[k2] == v2;
    assert forall k :: k in q ==> (k == k1 && v1 != [] && q[k] == v1) || (k == k2 && v2 != [] && q[k] == v2);
  }

  /** `Model.find(query)` over the collection `m`: the entries whose
      document passes `p`, each with its stored value. */
  function Select<K(!new), V>(m: map<K, V>, p: V -> bool): (r: map<K, V>)
    ensures forall k :: k in r <==> k in m && p(m[k])
    ensures forall k :: k in r ==> r[k] == m[k]
    ensures (forall k :: k in m ==> p(m[k])) ==> r == m
  {
    map k | k in m && p(m[k]) :: m[k]
  }

  /** `s.filter(x => x !== v)`: every occurrence of `v` removed. */
  function Without<T(==,!new)>(s: seq<T>, v: T): (r: seq<T>)
    ensures IsSubsequence(r, s)
    ensures v !in r
    ensures forall x :: x != v ==> multiset(r)[x] == multiset(s)[x]
    ensures NoDup(s) ==> NoDup(r)
  {
    var p := (x: T) => x != v;
    FilterNoDup(p, s);
    FilterIsSubsequence(p, s);
    FilterCount(p, s);
    FilterMembers(p, s);
    Filter(p, s)
  }

  /** Removing an element that was just appended to a list not containing it
      gives the list back. */
  lemma WithoutUndoesAppend<T(!new)>(s: seq<T>, v: T)
    requires v !in s
    ensures Without(s + [v], v) == s
  {
    var p := (x: T) => x != v;
    FilterAppend(p, s, [v]);
    FilterKeepsAll(p, s);
    assert Filter(p, [v]) == [];
  }

  /** The guarded push of the join/attend/volunteer handlers: a user already
      on the list is refused with 400, any other user is appended at the end. */
  function Enlist(members: seq<UserId>, u: UserId): (r: Result<seq<UserId>>)
    ensures r.Ok? <==> u !in members
    ensures r.Err? ==> r.failure == BadRequest
    ensures r.Ok? ==> r.value == members + [u]
    ensures r.Ok? && NoDup(members) ==> NoDup(r.value)
  {
    if u in members then Err(BadRequest) else Ok(members + [u])
  }

  /** The guarded filter of the leave handler: a user not on the list is
      refused with 400, otherwise every occurrence is removed. */
  function Delist(members: seq<UserId>, u: UserId): (r: Result<seq<UserId>>)
    ensures r.Ok? <==> u in members
    ensures r.Err? ==> r.failure == BadRequest
    ensures r.Ok? ==> u !in r.value && IsSubsequence(r.value, members)
    ensures r.Ok? ==> forall x :: x != u ==> multiset(r.value)[x] == multiset(members)[x]
    ensures r.Ok? && NoDup(members) ==> NoDup(r.value)
  {
    if u !in members then Err(BadRequest) else Ok(Without(members, u))
  }

  /** Leaving right after joining restores the list. */
  lemma DelistUndoesEnlist(members: seq<UserId>, u: UserId)
    requires Enlist(members, u).Ok?
    ensures Delist(Enlist(members, u).value, u) == Ok(members)
  {
    WithoutUndoesAppend(members, u);
  }
}
