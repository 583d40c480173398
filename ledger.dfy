/** Users, amounts in cents, and the balance record keyed by user id. */
module Ledger {

  type UserId = int

  /** A user together with an amount in cents: an entry of the balance
      record, a creditor (amount it is owed) or a debtor (amount it owes). */
  datatype Party = Party(userId: UserId, amount: int)

  function Abs(x: int): int
  {
    if x < 0 then -x else x
  }

  /** `Math.abs(x) < 0.01` on an amount held in cents: the amount is zero. */
  predicate Settled(x: int)
  {
    Abs(x) < 1
  }

  /** `balances[u] || 0`: the balance of a user, 0 when the user has none yet. */
  function Lookup(m: map<UserId, int>, u: UserId): int
  {
    if u in m then m[u] else 0
  }

  /** The sum of the amounts of a list of parties. */
  function SumOf(s: seq<Party>): int
  {
    if s == [] then 0 else s[0].amount + SumOf(s[1..])
  }

  /** The users of a list of parties. */
  function UsersOf(s: seq<Party>): set<UserId>
  {
    set x | x in s :: x.userId
  }

  /** Strictly ascending user ids (so also each user at most once). */
  predicate AscendingUsers(s: seq<Party>)
  {
    forall p, q :: 0 <= p < q < |s| ==> s[p].userId < s[q].userId
  }

  /** Each user at most once. */
  predicate DistinctUsers(s: seq<Party>)
  {
    forall p, q :: 0 <= p < q < |s| ==> s[p].userId != s[q].userId
  }

  /** The amount a list of parties holds for one user. */
  function AmountOf(s: seq<Party>, u: UserId): int
  {
    if s == [] then 0 else (if s[0].userId == u then s[0].amount else 0) + AmountOf(s[1..], u)
  }

  lemma {:induction false} AmountOfAbsent(s: seq<Party>, u: UserId)
    requires u !in UsersOf(s)
    ensures AmountOf(s, u) == 0
  {
    if s != [] {
      assert UsersOf(s[1..]) <= UsersOf(s);
      AmountOfAbsent(s[1..], u);
    }
  }

  /** In a list with each user at most once, a user's amount is that of its
      one entry. */
  lemma {:induction false} AmountOfEntry(s: seq<Party>, x: Party)
    requires AscendingUsers(s) && x in s
    ensures AmountOf(s, x.userId) == x.amount
  {
    if s[0] == x {
      assert forall y :: y in s[1..] ==> y.userId > x.userId;
      AmountOfAbsent(s[1..], x.userId);
    } else {
      assert x in s[1..];
      assert s[0].userId < x.userId;
      AmountOfEntry(s[1..], x);
    }
  }

  lemma {:induction false} AmountOfAppend(s: seq<Party>, t: seq<Party>, u: UserId)
    ensures AmountOf(s + t, u) == AmountOf(s, u) + AmountOf(t, u)
  {
    if s == [] {
      assert s + t == t;
    } else {
      assert (s + t)[1..] == s[1..] + t;
      AmountOfAppend(s[1..], t, u);
    }
  }

  lemma {:induction false} SumOfAppend(s: seq<Party>, t: seq<Party>)
    ensures SumOf(s + t) == SumOf(s) + SumOf(t)
  {
    if s == [] {
      assert s + t == t;
    } else {
      assert (s + t)[1..] == s[1..] + t;
      SumOfAppend(s[1..], t);
    }
  }

  /** A set is empty or has a member. */
  lemma EmptyOrInhabited(keys: set<UserId>)
    ensures keys == {} || exists k :: k in keys
  {
    if forall j :: j !in keys {
      assert keys == {};
    }
  }

  lemma {:induction false} MinKeyExists(keys: set<UserId>)
    requires keys != {}
    ensures exists k :: k in keys && forall j :: j in keys ==> k <= j
  {
    EmptyOrInhabited(keys);
    var x :| x in keys;
    var others := keys - {x};
    if others == {} {
      forall j | j in keys ensures x <= j {
        assert j !in others;
      }
    } else {
      MinKeyExists(others);
      var k :| k in others && forall j :: j in others ==> k <= j;
      var low := if x < k then x else k;
      forall j | j in keys ensures low <= j {
        if j != x {
          assert j in others;
        }
      }
      assert low in keys;
    }
  }

  /** The smallest user id of a non-empty set of ids. */
  ghost function MinKey(keys: set<UserId>): (k: UserId)
    requires keys != {}
    ensures k in keys && forall j :: j in keys ==> k <= j
  {
    MinKeyExists(keys);
    var k :| k in keys && forall j :: j in keys ==> k <= j;
    k
  }

  /** `Object.entries` of a record keyed by integers: the entries in
      ascending numeric key order (the order of OrdinaryOwnPropertyKeys in
      ECMA-262 for integer-like keys). */
  ghost function Entries(m: map<UserId, int>): seq<Party>
    decreases m.Keys
  {
    if m.Keys == {} then []
    else
      var k := MinKey(m.Keys);
      [Party(k, m[k])] + Entries(m - {k})
  }

  /** Enumeration starts with the smallest key. */
  lemma EntriesFirst(m: map<UserId, int>, k: UserId)
    requires k in m && forall j :: j in m ==> k <= j
    ensures Entries(m) == [Party(k, m[k])] + Entries(m - {k})
  {
    assert MinKey(m.Keys) == k;
  }

  /** The sum of all balances of a record. */
  ghost function BalanceTotal(m: map<UserId, int>): int
  {
    SumOf(Entries(m))
  }

  /** Enumeration lists every entry of the record and nothing else, each
      user once, in strictly ascending user id order. */
  lemma {:induction false} EntriesFaithful(m: map<UserId, int>)
    ensures forall p :: p in Entries(m) <==> p.userId in m && p.amount == m[p.userId]
    ensures AscendingUsers(Entries(m))
    decreases m.Keys
  {
    if m.Keys != {} {
      var k := MinKey(m.Keys);
      var rest := m - {k};
      EntriesFaithful(rest);
      var es := Entries(m);
      assert es == [Party(k, m[k])] + Entries(rest);
      forall p, q | 0 <= p < q < |es|
        ensures es[p].userId < es[q].userId
      {
        assert es[q] == Entries(rest)[q - 1];
        if p > 0 {
          assert es[p] == Entries(rest)[p - 1];
        } else {
          assert es[q] in Entries(rest);
        }
      }
    }
  }

  /** Removing any one user from the record removes exactly its balance from
      the total. */
  lemma {:induction false} BalanceTotalWithout(m: map<UserId, int>, k: UserId)
    requires k in m
    ensures BalanceTotal(m) == m[k] + BalanceTotal(m - {k})
    decreases m.Keys
  {
    var k0 := MinKey(m.Keys);
    if k != k0 {
      var rest := m - {k0};
      BalanceTotalWithout(rest, k);
      assert (m - {k}).Keys == m.Keys - {k};
      assert k0 in (m - {k}).Keys;
      var k1 := MinKey((m - {k}).Keys);
      assert k1 in m.Keys && k1 <= k0;
      assert rest - {k} == (m - {k}) - {k0};
    }
  }

  /** Setting one user's balance changes the total by the difference. */
  lemma BalanceTotalUpdate(m: map<UserId, int>, u: UserId, v: int)
    ensures BalanceTotal(m[u := v]) == BalanceTotal(m) - Lookup(m, u) + v
  {
    BalanceTotalWithout(m[u := v], u);
    if u in m {
      BalanceTotalWithout(m, u);
      assert m[u := v] - {u} == m - {u};
    } else {
      assert m[u := v] - {u} == m;
    }
  }

  /** Enumerating the record and reading a user's amount off the list gives
      that user's balance. */
  lemma EntriesAmount(m: map<UserId, int>, u: UserId)
    ensures AmountOf(Entries(m), u) == Lookup(m, u)
  {
    EntriesFaithful(m);
    if u in m {
      AmountOfEntry(Entries(m), Party(u, m[u]));
    } else {
      AmountOfAbsent(Entries(m), u);
    }
  }
}
