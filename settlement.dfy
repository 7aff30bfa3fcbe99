/**
 * The settlement plan of the settlement controller: the ledger is split into
 * creditors and debtors, both lists are sorted by decreasing amount once,
 * and the debtor at the head of its list repeatedly pays the creditor at the
 * head of its list as much as both can take, until one of the lists runs
 * out. The heads are not re-sorted after a payment.
 *
 * `Greedy` is the reference definition of the pairing loop, on the exact
 * (unrounded) amounts that change hands; `Emit` turns it into the published
 * plan by rounding every amount to cents and keeping those above one cent.
 * `Settle` and `GetSettlements` are the controller's loops, proved to
 * produce exactly that plan. The plan does not always clear the ledger:
 * `PlanUnsettled` and `AllocatedPlanLeaves` bound what it leaves before
 * rounding, and `AllocatedPublishedLeaves` what the published plan leaves.
 */
module Settlement {
  import opened Money
  import opened ExpenseModel
  import opened Balances
  import opened BalanceProperties

  /** A creditor (amount owed to it) or a debtor (amount it owes), amount positive. */
  datatype Party = Party(person: string, amount: real)

  /** `from` pays `amount` to `to`. */
  datatype Settlement = Settlement(from: string, to: string, amount: real)

  // ---------------------------------------------------------------------
  // Creditors and debtors
  // ---------------------------------------------------------------------

  /** The people of `keys` owed more than a cent, in key order, with what they are owed. */
  function Creditors(b: Ledger, keys: seq<string>): seq<Party>
    decreases |keys|
  {
    if keys == [] then []
    else
      var x := keys[|keys| - 1];
      Creditors(b, keys[..|keys| - 1]) + (if Get(b, x) > Tolerance then [Party(x, Get(b, x))] else [])
  }

  /** The people of `keys` owing more than a cent, in key order, with what they owe. */
  function Debtors(b: Ledger, keys: seq<string>): seq<Party>
    decreases |keys|
  {
    if keys == [] then []
    else
      var x := keys[|keys| - 1];
      Debtors(b, keys[..|keys| - 1]) + (if Get(b, x) < -Tolerance then [Party(x, Abs(Get(b, x)))] else [])
  }

  /** The separating `for ... in` loop over the ledger's keys. */
  method Partition(b: Ledger, keys: seq<string>) returns (creditors: seq<Party>, debtors: seq<Party>)
    ensures creditors == Creditors(b, keys)
    ensures debtors == Debtors(b, keys)
  {
    creditors, debtors := [], [];
    var i := 0;
    while i < |keys|
      invariant 0 <= i <= |keys|
      invariant creditors == Creditors(b, keys[..i])
      invariant debtors == Debtors(b, keys[..i])
    {
      var person := keys[i];
      assert keys[..i + 1][..i] == keys[..i];
      var balance := Get(b, person);
      if balance > Tolerance {
        creditors := creditors + [Party(person, balance)];
      } else if balance < -Tolerance {
        debtors := debtors + [Party(person, Abs(balance))];
      }
      i := i + 1;
    }
    assert keys[..|keys|] == keys;
  }

  /** Every creditor is a person of `keys` owed more than a cent, recorded with its balance. */
  lemma {:induction false} CreditorsSound(b: Ledger, keys: seq<string>)
    ensures forall p :: p in Creditors(b, keys) ==> p.person in keys && Get(b, p.person) > Tolerance && p.amount == Get(b, p.person)
    decreases |keys|
  {
    if keys != [] {
      var init, x := keys[..|keys| - 1], keys[|keys| - 1];
      CreditorsSound(b, init);
      assert keys == init + [x];
      assert forall y :: y in init ==> y in keys;
    }
  }

  /** Every person of `keys` owed more than a cent is a creditor. */
  lemma {:induction false} CreditorsComplete(b: Ledger, keys: seq<string>)
    ensures forall x :: x in keys && Get(b, x) > Tolerance ==> Party(x, Get(b, x)) in Creditors(b, keys)
    decreases |keys|
  {
    if keys != [] {
      var init, x := keys[..|keys| - 1], keys[|keys| - 1];
      CreditorsComplete(b, init);
      assert keys == init + [x];
      forall y | y in keys && Get(b, y) > Tolerance
        ensures Party(y, Get(b, y)) in Creditors(b, keys)
      {
        if y != x {
          assert y in init;
        }
      }
    }
  }

  /** Nobody is listed twice as a creditor. */
  lemma {:induction false} CreditorsDistinct(b: Ledger, keys: seq<string>)
    requires Distinct(keys)
    ensures forall i, j :: 0 <= i < j < |Creditors(b, keys)| ==> Creditors(b, keys)[i].person != Creditors(b, keys)[j].person
    decreases |keys|
  {
    if keys != [] {
      var init, x := keys[..|keys| - 1], keys[|keys| - 1];
      assert Distinct(init);
      CreditorsDistinct(b, init);
      CreditorsSound(b, init);
      assert x !in init;
    }
  }


  /** Every debtor is a person of `keys` owing more than a cent, recorded with what it owes. */
  lemma {:induction false} DebtorsSound(b: Ledger, keys: seq<string>)
    ensures forall p :: p in Debtors(b, keys) ==> p.person in keys && Get(b, p.person) < -Tolerance && p.amount == -Get(b, p.person)
    decreases |keys|
  {
    if keys != [] {
      var init, x := keys[..|keys| - 1], keys[|keys| - 1];
      DebtorsSound(b, init);
      assert keys == init + [x];
      assert forall y :: y in init ==> y in keys;
    }
  }

  /** Every person of `keys` owing more than a cent is a debtor. */
  lemma {:induction false} DebtorsComplete(b: Ledger, keys: seq<string>)
    ensures forall x :: x in keys && Get(b, x) < -Tolerance ==> Party(x, -Get(b, x)) in Debtors(b, keys)
    decreases |keys|
  {
    if keys != [] {
      var init, x := keys[..|keys| - 1], keys[|keys| - 1];
      DebtorsComplete(b, init);
      assert keys == init + [x];
      forall y | y in keys && Get(b, y) < -Tolerance
        ensures Party(y, -Get(b, y)) in Debtors(b, keys)
      {
        if y != x {
          assert y in init;
        }
      }
    }
  }

  /** Nobody is listed twice as a debtor. */
  lemma {:induction false} DebtorsDistinct(b: Ledger, keys: seq<string>)
    requires Distinct(keys)
    ensures forall i, j :: 0 <= i < j < |Debtors(b, keys)| ==> Debtors(b, keys)[i].person != Debtors(b, keys)[j].person
    decreases |keys|
  {
    if keys != [] {
      var init, x := keys[..|keys| - 1], keys[|keys| - 1];
      assert Distinct(init);
      DebtorsDistinct(b, init);
      DebtorsSound(b, init);
      assert x !in init;
    }
  }


  /** Nobody is both a creditor and a debtor. */
  lemma Disjoint(b: Ledger, keys: seq<string>, c: Party, d: Party)
    requires c in Creditors(b, keys) && d in Debtors(b, keys)
    ensures c.person != d.person
  {
    CreditorsSound(b, keys);
    DebtorsSound(b, keys);
  }

  // ---------------------------------------------------------------------
  // Sorting by decreasing amount
  // ---------------------------------------------------------------------

  predicate SortedDesc(s: seq<Party>)
  {
    forall i, j :: 0 <= i < j < |s| ==> s[i].amount >= s[j].amount
  }

  /** Puts `x` before the first element that does not exceed it. */
  function Insert(x: Party, s: seq<Party>): seq<Party>
    decreases |s|
  {
    if s == [] || x.amount >= s[0].amount then [x] + s
    else [s[0]] + Insert(x, s[1..])
  }

  /**
   * `Array.prototype.sort` with the comparator `b.amount - a.amount`, as a
   * stable insertion sort: equal amounts keep their relative order.
   */
  function SortDesc(s: seq<Party>): seq<Party>
    decreases |s|
  {
    if s == [] then [] else Insert(s[0], SortDesc(s[1..]))
  }

  lemma {:induction false} InsertPermutation(x: Party, s: seq<Party>)
    ensures multiset(Insert(x, s)) == multiset(s) + multiset{x}
    decreases |s|
  {
    if s != [] && x.amount < s[0].amount {
      InsertPermutation(x, s[1..]);
      assert s == [s[0]] + s[1..];
    }
  }

  lemma {:induction false} InsertSorted(x: Party, s: seq<Party>)
    requires SortedDesc(s)
    ensures SortedDesc(Insert(x, s))
    decreases |s|
  {
    if s != [] && x.amount < s[0].amount {
      var rest := Insert(x, s[1..]);
      InsertSorted(x, s[1..]);
      assert rest[0] == x || rest[0] == s[1];
      assert s[0].amount >= rest[0].amount;
    }
  }

  lemma {:induction false} MagnitudeInsert(p: Party, s: seq<Party>, x: string)
    ensures Magnitude(Insert(p, s), x) == (if p.person == x then p.amount else 0.0) + Magnitude(s, x)
    decreases |s|
  {
    if s != [] && p.amount < s[0].amount {
      MagnitudeInsert(p, s[1..], x);
      assert ([s[0]] + Insert(p, s[1..]))[1..] == Insert(p, s[1..]);
    } else {
      assert ([p] + s)[1..] == s;
    }
  }

  /** Sorting changes nobody's total. */
  lemma {:induction false} MagnitudeSort(s: seq<Party>, x: string)
    ensures Magnitude(SortDesc(s), x) == Magnitude(s, x)
    decreases |s|
  {
    if s != [] {
      MagnitudeSort(s[1..], x);
      MagnitudeInsert(s[0], SortDesc(s[1..]), x);
    }
  }

  /** The sorted list is ordered by decreasing amount and holds the same parties. */
  lemma {:induction false} SortDescSpec(s: seq<Party>)
    ensures SortedDesc(SortDesc(s))
    ensures multiset(SortDesc(s)) == multiset(s)
    decreases |s|
  {
    if s != [] {
      SortDescSpec(s[1..]);
      InsertSorted(s[0], SortDesc(s[1..]));
      InsertPermutation(s[0], SortDesc(s[1..]));
      assert s == [s[0]] + s[1..];
    }
  }

  // ---------------------------------------------------------------------
  // The pairing loop
  // ---------------------------------------------------------------------

  /** The list after its head pays or receives `m`: the head is gone once less than a cent is left. */
  function Reduce(s: seq<Party>, m: real): (r: seq<Party>)
    requires s != []
    ensures |r| == if s[0].amount - m < Tolerance then |s| - 1 else |s|
  {
    var head := s[0].(amount := s[0].amount - m);
    if head.amount < Tolerance then s[1..] else s[0 := head]
  }

  /**
   * The exact amounts the pairing loop moves: the head debtor pays the head
   * creditor the smaller of their amounts, both are reduced by it, and a head
   * left with less than a cent is dropped.
   */
  function Greedy(creditors: seq<Party>, debtors: seq<Party>): seq<Settlement>
    decreases |creditors| + |debtors|
  {
    if creditors == [] || debtors == [] then []
    else
      var m := Min(creditors[0].amount, debtors[0].amount);
      [Settlement(debtors[0].person, creditors[0].person, m)] + Greedy(Reduce(creditors, m), Reduce(debtors, m))
  }

  /** The published plan: every amount rounded to cents, those of one cent or less left out. */
  function Emit(steps: seq<Settlement>): (r: seq<Settlement>)
    ensures |r| <= |steps|
    ensures forall t :: t in r ==> t.amount > Tolerance
    decreases |steps|
  {
    if steps == [] then []
    else
      var u := steps[0];
      var rounded := Round2(u.amount);
      (if rounded > Tolerance then [Settlement(u.from, u.to, rounded)] else []) + Emit(steps[1..])
  }

  /** Every published payment is a step of the loop with its amount rounded to cents. */
  lemma {:induction false} EmitFrom(steps: seq<Settlement>)
    ensures forall t :: t in Emit(steps) ==> exists u :: u in steps && t == Settlement(u.from, u.to, Round2(u.amount))
    decreases |steps|
  {
    if steps != [] {
      EmitFrom(steps[1..]);
      forall t | t in Emit(steps)
        ensures exists u :: u in steps && t == Settlement(u.from, u.to, Round2(u.amount))
      {
        if t !in Emit(steps[1..]) {
          assert steps[0] in steps;
        } else {
          var u :| u in steps[1..] && t == Settlement(u.from, u.to, Round2(u.amount));
          assert u in steps;
        }
      }
    }
  }

  lemma {:induction false} EmitAppend(a: seq<Settlement>, b: seq<Settlement>)
    ensures Emit(a + b) == Emit(a) + Emit(b)
    decreases |a|
  {
    if a == [] {
      assert a + b == b;
    } else {
      var u := a[0];
      var head := if Round2(u.amount) > Tolerance then [Settlement(u.from, u.to, Round2(u.amount))] else [];
      assert (a + b)[0] == u;
      assert (a + b)[1..] == a[1..] + b;
      assert Emit(a + b) == head + Emit(a[1..] + b);
      assert Emit(a) == head + Emit(a[1..]);
      EmitAppend(a[1..], b);
      Associative(head, Emit(a[1..]), Emit(b));
    }
  }

  /** One round of the pairing loop, as it shows in the published plan. */
  lemma EmitStep(creditors: seq<Party>, debtors: seq<Party>)
    requires creditors != [] && debtors != []
    ensures var m := Min(creditors[0].amount, debtors[0].amount);
      Emit(Greedy(creditors, debtors))
      == (if Round2(m) > Tolerance then [Settlement(debtors[0].person, creditors[0].person, Round2(m))] else [])
         + Emit(Greedy(Reduce(creditors, m), Reduce(debtors, m)))
  {
    var m := Min(creditors[0].amount, debtors[0].amount);
    var step := Settlement(debtors[0].person, creditors[0].person, m);
    EmitAppend([step], Greedy(Reduce(creditors, m), Reduce(debtors, m)));
  }

  lemma ShiftUpdated(s: seq<Party>, x: Party)
    requires s != []
    ensures s[0 := x][1..] == s[1..]
  {
  }

  lemma Associative(a: seq<Settlement>, b: seq<Settlement>, c: seq<Settlement>)
    ensures (a + b) + c == a + (b + c)
  {
  }

  // ---------------------------------------------------------------------
  // What the pairing loop does
  // ---------------------------------------------------------------------

  /**
   * Every round moves money and retires at least one party, so the loop
   * makes at most one payment fewer than there are parties, and none at all
   * when either list is empty.
   */
  lemma {:induction false} GreedyLength(creditors: seq<Party>, debtors: seq<Party>)
    ensures creditors == [] || debtors == [] ==> Greedy(creditors, debtors) == []
    ensures creditors != [] && debtors != [] ==> |Greedy(creditors, debtors)| <= |creditors| + |debtors| - 1
    decreases |creditors| + |debtors|
  {
    if creditors != [] && debtors != [] {
      var m := Min(creditors[0].amount, debtors[0].amount);
      GreedyLength(Reduce(creditors, m), Reduce(debtors, m));
    }
  }

  function Persons(s: seq<Party>): set<string>
  {
    set p | p in s :: p.person
  }

  lemma ReducePersons(s: seq<Party>, m: real)
    requires s != []
    ensures Persons(Reduce(s, m)) <= Persons(s)
  {
    var r := Reduce(s, m);
    forall x | x in Persons(r)
      ensures x in Persons(s)
    {
      var p :| p in r && p.person == x;
      var k :| 0 <= k < |r| && r[k] == p;
      if r == s[1..] {
        assert s[k + 1] == p;
      } else {
        assert k == 0 ==> p.person == s[0].person;
        assert k > 0 ==> s[k] == p;
      }
    }
  }

  /** Every step goes from one of the debtors to one of the creditors. */
  lemma {:induction false} GreedyEndpoints(creditors: seq<Party>, debtors: seq<Party>)
    ensures forall t :: t in Greedy(creditors, debtors) ==> t.from in Persons(debtors) && t.to in Persons(creditors)
    decreases |creditors| + |debtors|
  {
    if creditors != [] && debtors != [] {
      var m := Min(creditors[0].amount, debtors[0].amount);
      GreedyEndpoints(Reduce(creditors, m), Reduce(debtors, m));
      ReducePersons(creditors, m);
      ReducePersons(debtors, m);
      assert creditors[0] in creditors && debtors[0] in debtors;
    }
  }

  /** Every party still has at least a cent to pay or receive. */
  predicate AtLeastCent(s: seq<Party>)
  {
    forall i :: 0 <= i < |s| ==> s[i].amount >= Tolerance
  }

  lemma ReduceAtLeastCent(s: seq<Party>, m: real)
    requires s != [] && AtLeastCent(s)
    ensures AtLeastCent(Reduce(s, m))
  {
    var r := Reduce(s, m);
    forall i | 0 <= i < |r|
      ensures r[i].amount >= Tolerance
    {
      if r == s[1..] {
        assert r[i] == s[i + 1];
      }
    }
  }

  /** When every party has at least a cent, every step moves at least a cent. */
  lemma {:induction false} GreedyPositive(creditors: seq<Party>, debtors: seq<Party>)
    requires AtLeastCent(creditors) && AtLeastCent(debtors)
    ensures forall t :: t in Greedy(creditors, debtors) ==> t.amount >= Tolerance
    decreases |creditors| + |debtors|
  {
    if creditors != [] && debtors != [] {
      var m := Min(creditors[0].amount, debtors[0].amount);
      ReduceAtLeastCent(creditors, m);
      ReduceAtLeastCent(debtors, m);
      GreedyPositive(Reduce(creditors, m), Reduce(debtors, m));
    }
  }

  /** What the parties named `x` in `s` have to pay or receive, added up. */
  function Magnitude(s: seq<Party>, x: string): real
    decreases |s|
  {
    if s == [] then 0.0 else (if s[0].person == x then s[0].amount else 0.0) + Magnitude(s[1..], x)
  }

  lemma {:induction false} MagnitudeNonNegative(s: seq<Party>, x: string)
    requires AtLeastCent(s)
    ensures Magnitude(s, x) >= 0.0
    decreases |s|
  {
    if s != [] {
      assert AtLeastCent(s[1..]) by {
        forall i | 0 <= i < |s| - 1 ensures s[1..][i].amount >= Tolerance {
          assert s[1..][i] == s[i + 1];
        }
      }
      MagnitudeNonNegative(s[1..], x);
    }
  }

  /** What `x` pays over all of `steps`. */
  function Paid(steps: seq<Settlement>, x: string): real
    decreases |steps|
  {
    if steps == [] then 0.0 else (if steps[0].from == x then steps[0].amount else 0.0) + Paid(steps[1..], x)
  }

  /** What `x` receives over all of `steps`. */
  function Received(steps: seq<Settlement>, x: string): real
    decreases |steps|
  {
    if steps == [] then 0.0 else (if steps[0].to == x then steps[0].amount else 0.0) + Received(steps[1..], x)
  }

  /** Paying or receiving `m` lowers the head's magnitude by `m`, or retires it. */
  lemma ReduceMagnitude(s: seq<Party>, m: real, x: string)
    requires s != [] && m <= s[0].amount
    ensures Magnitude(Reduce(s, m), x) <= Magnitude(s, x) - (if s[0].person == x then m else 0.0)
  {
    var head := s[0].(amount := s[0].amount - m);
    if head.amount >= Tolerance {
      ShiftUpdated(s, head);
      assert s[0 := head][0] == head;
    }
  }

  /**
   * Nobody pays more than the debtors' list says it owes, and nobody receives
   * more than the creditors' list says it is owed.
   */
  lemma {:induction false} GreedyBounds(creditors: seq<Party>, debtors: seq<Party>, x: string)
    requires AtLeastCent(creditors) && AtLeastCent(debtors)
    ensures Paid(Greedy(creditors, debtors), x) <= Magnitude(debtors, x)
    ensures Received(Greedy(creditors, debtors), x) <= Magnitude(creditors, x)
    decreases |creditors| + |debtors|
  {
    if creditors != [] && debtors != [] {
      var m := Min(creditors[0].amount, debtors[0].amount);
      var c, d := Reduce(creditors, m), Reduce(debtors, m);
      ReduceAtLeastCent(creditors, m);
      ReduceAtLeastCent(debtors, m);
      GreedyBounds(c, d, x);
      ReduceMagnitude(creditors, m, x);
      ReduceMagnitude(debtors, m, x);
      var steps := Greedy(creditors, debtors);
      assert steps[1..] == Greedy(c, d);
    } else {
      MagnitudeNonNegative(creditors, x);
      MagnitudeNonNegative(debtors, x);
    }
  }

  // ---------------------------------------------------------------------
  // What the pairing loop leaves unsettled
  // ---------------------------------------------------------------------

  /** The amounts of a list of parties, added up. */
  function Total(s: seq<Party>): real
    decreases |s|
  {
    if s == [] then 0.0 else s[0].amount + Total(s[1..])
  }

  /** The amounts of a list of payments, added up. */
  function Moved(steps: seq<Settlement>): real
    decreases |steps|
  {
    if steps == [] then 0.0 else steps[0].amount + Moved(steps[1..])
  }

  lemma {:induction false} TotalNonNegative(s: seq<Party>)
    requires AtLeastCent(s)
    ensures Total(s) >= 0.0
    decreases |s|
  {
    if s != [] {
      assert AtLeastCent(s[1..]) by {
        forall i | 0 <= i < |s| - 1 ensures s[1..][i].amount >= Tolerance {
          assert s[1..][i] == s[i + 1];
        }
      }
      TotalNonNegative(s[1..]);
    }
  }

  /**
   * Paying or receiving `m` lowers the list's total by `m`; when the head is
   * dropped, what was left of it (less than a cent) goes with it.
   */
  lemma ReduceTotal(s: seq<Party>, m: real)
    requires s != []
    ensures s[0].amount - m < Tolerance ==> Total(Reduce(s, m)) == Total(s) - s[0].amount
    ensures s[0].amount - m >= Tolerance ==> Total(Reduce(s, m)) == Total(s) - m
  {
    var head := s[0].(amount := s[0].amount - m);
    if head.amount >= Tolerance {
      ShiftUpdated(s, head);
      assert s[0 := head][0] == head;
    }
  }

  /**
   * Neither list is paid or received more than its total, and the loop stops
   * with one of the two lists settled to within less than a cent per party:
   * whatever remains unsettled on that side is what its dropped heads had
   * left.
   */
  lemma {:induction false} GreedyUnsettled(creditors: seq<Party>, debtors: seq<Party>)
    requires AtLeastCent(creditors) && AtLeastCent(debtors)
    ensures Moved(Greedy(creditors, debtors)) <= Total(creditors)
    ensures Moved(Greedy(creditors, debtors)) <= Total(debtors)
    ensures Total(creditors) - Moved(Greedy(creditors, debtors)) <= Tolerance * |creditors| as real
         || Total(debtors) - Moved(Greedy(creditors, debtors)) <= Tolerance * |debtors| as real
    decreases |creditors| + |debtors|
  {
    TotalNonNegative(creditors);
    TotalNonNegative(debtors);
    if creditors != [] && debtors != [] {
      var m := Min(creditors[0].amount, debtors[0].amount);
      var c, d := Reduce(creditors, m), Reduce(debtors, m);
      ReduceAtLeastCent(creditors, m);
      ReduceAtLeastCent(debtors, m);
      GreedyUnsettled(c, d);
      ReduceTotal(creditors, m);
      ReduceTotal(debtors, m);
      var steps := Greedy(creditors, debtors);
      assert steps[0].amount == m && steps[1..] == Greedy(c, d);
      assert Moved(steps) == m + Moved(Greedy(c, d));
    }
  }

  // ---------------------------------------------------------------------
  // The plan in terms of the ledger
  // ---------------------------------------------------------------------

  /** The exact amounts the loop moves for a ledger and its key order. */
  function Steps(b: Ledger, keys: seq<string>): seq<Settlement>
  {
    Greedy(SortDesc(Creditors(b, keys)), SortDesc(Debtors(b, keys)))
  }

  lemma {:induction false} MagnitudeAppend(a: seq<Party>, c: seq<Party>, x: string)
    ensures Magnitude(a + c, x) == Magnitude(a, x) + Magnitude(c, x)
    decreases |a|
  {
    if a == [] {
      assert a + c == c;
    } else {
      MagnitudeAppend(a[1..], c, x);
      assert (a + c)[1..] == a[1..] + c;
    }
  }

  /** A person's total among the creditors is its balance if it is one, and 0 otherwise. */
  lemma {:induction false} MagnitudeCreditors(b: Ledger, keys: seq<string>, x: string)
    requires Distinct(keys)
    ensures Magnitude(Creditors(b, keys), x) == if x in keys && Get(b, x) > Tolerance then Get(b, x) else 0.0
    decreases |keys|
  {
    if keys != [] {
      var init, y := keys[..|keys| - 1], keys[|keys| - 1];
      assert keys == init + [y];
      assert Distinct(init);
      MagnitudeCreditors(b, init, x);
      MagnitudeAppend(Creditors(b, init), if Get(b, y) > Tolerance then [Party(y, Get(b, y))] else [], x);
      assert y in init ==> false;
    }
  }

  /** A person's total among the debtors is what it owes if it is one, and 0 otherwise. */
  lemma {:induction false} MagnitudeDebtors(b: Ledger, keys: seq<string>, x: string)
    requires Distinct(keys)
    ensures Magnitude(Debtors(b, keys), x) == if x in keys && Get(b, x) < -Tolerance then -Get(b, x) else 0.0
    decreases |keys|
  {
    if keys != [] {
      var init, y := keys[..|keys| - 1], keys[|keys| - 1];
      assert keys == init + [y];
      assert Distinct(init);
      MagnitudeDebtors(b, init, x);
      MagnitudeAppend(Debtors(b, init), if Get(b, y) < -Tolerance then [Party(y, Abs(Get(b, y)))] else [], x);
      assert y in init ==> false;
    }
  }

  /** Sorting keeps the parties: membership and length are unchanged. */
  lemma SortDescSame(s: seq<Party>)
    ensures |SortDesc(s)| == |s|
    ensures forall p :: p in SortDesc(s) <==> p in s
  {
    SortDescSpec(s);
    assert |multiset(SortDesc(s))| == |multiset(s)|;
    forall p
      ensures p in SortDesc(s) <==> p in s
    {
      assert p in SortDesc(s) <==> p in multiset(SortDesc(s));
    }
  }

  /** Both sorted lists hold parties of at least a cent. */
  lemma SortedAtLeastCent(b: Ledger, keys: seq<string>)
    ensures AtLeastCent(SortDesc(Creditors(b, keys)))
    ensures AtLeastCent(SortDesc(Debtors(b, keys)))
  {
    CreditorsSound(b, keys);
    DebtorsSound(b, keys);
    SortDescSame(Creditors(b, keys));
    SortDescSame(Debtors(b, keys));
    var c, d := SortDesc(Creditors(b, keys)), SortDesc(Debtors(b, keys));
    assert forall i :: 0 <= i < |c| ==> c[i] in c;
    assert forall i :: 0 <= i < |d| ==> d[i] in d;
  }

  /** Each person of `keys` is a creditor, a debtor or neither: never more parties than people. */
  lemma {:induction false} PartitionSize(b: Ledger, keys: seq<string>)
    ensures |Creditors(b, keys)| + |Debtors(b, keys)| <= |keys|
    decreases |keys|
  {
    if keys != [] {
      PartitionSize(b, keys[..|keys| - 1]);
    }
  }

  /**
   * Every published payment goes from a person owing more than a cent to a
   * person owed more than a cent, and is more than a cent.
   */
  lemma PlanParties(b: Ledger, keys: seq<string>)
    ensures forall t :: t in PlanOf(b, keys) ==>
      t.from in keys && Get(b, t.from) < -Tolerance && t.to in keys && Get(b, t.to) > Tolerance && t.amount > Tolerance
  {
    var c, d := Creditors(b, keys), Debtors(b, keys);
    CreditorsSound(b, keys);
    DebtorsSound(b, keys);
    SortDescSame(c);
    SortDescSame(d);
    GreedyEndpoints(SortDesc(c), SortDesc(d));
    EmitFrom(Steps(b, keys));
  }

  /**
   * A ledger of `n` people is settled in at most `n - 1` payments, and in
   * none when nobody is owed, or nobody owes, more than a cent.
   */
  lemma PlanLength(b: Ledger, keys: seq<string>)
    ensures Creditors(b, keys) == [] || Debtors(b, keys) == [] ==> PlanOf(b, keys) == []
    ensures |PlanOf(b, keys)| <= |Creditors(b, keys)| + |Debtors(b, keys)| - 1 || PlanOf(b, keys) == []
    ensures |PlanOf(b, keys)| < |keys| || PlanOf(b, keys) == []
  {
    var c, d := Creditors(b, keys), Debtors(b, keys);
    SortDescSame(c);
    SortDescSame(d);
    GreedyLength(SortDesc(c), SortDesc(d));
    PartitionSize(b, keys);
  }

  /**
   * Taken exactly, nobody pays more than it owes and nobody receives more
   * than it is owed.
   */
  lemma PlanBounds(b: Ledger, keys: seq<string>, x: string)
    requires Distinct(keys)
    ensures Paid(Steps(b, keys), x) <= if x in keys && Get(b, x) < -Tolerance then -Get(b, x) else 0.0
    ensures Received(Steps(b, keys), x) <= if x in keys && Get(b, x) > Tolerance then Get(b, x) else 0.0
  {
    SortedAtLeastCent(b, keys);
    GreedyBounds(SortDesc(Creditors(b, keys)), SortDesc(Debtors(b, keys)), x);
    MagnitudeSort(Creditors(b, keys), x);
    MagnitudeSort(Debtors(b, keys), x);
    MagnitudeCreditors(b, keys, x);
    MagnitudeDebtors(b, keys, x);
  }

  /** Every step of the loop moves at least a cent. */
  lemma StepsPositive(b: Ledger, keys: seq<string>)
    ensures forall t :: t in Steps(b, keys) ==> t.amount >= Tolerance
  {
    SortedAtLeastCent(b, keys);
    GreedyPositive(SortDesc(Creditors(b, keys)), SortDesc(Debtors(b, keys)));
  }

  /** The plan `getSettlements` computes from a ledger and its key order. */
  function PlanOf(b: Ledger, keys: seq<string>): seq<Settlement>
  {
    Emit(Steps(b, keys))
  }

  lemma {:induction false} TotalAppend(a: seq<Party>, c: seq<Party>)
    ensures Total(a + c) == Total(a) + Total(c)
    decreases |a|
  {
    if a == [] {
      assert a + c == c;
    } else {
      assert (a + c)[0] == a[0] && (a + c)[1..] == a[1..] + c;
      TotalAppend(a[1..], c);
    }
  }

  lemma {:induction false} TotalInsert(x: Party, s: seq<Party>)
    ensures Total(Insert(x, s)) == x.amount + Total(s)
    decreases |s|
  {
    if s != [] && x.amount < s[0].amount {
      TotalInsert(x, s[1..]);
      assert ([s[0]] + Insert(x, s[1..]))[1..] == Insert(x, s[1..]);
    } else {
      assert ([x] + s)[1..] == s;
    }
  }

  /** Sorting keeps the total. */
  lemma {:induction false} TotalSort(s: seq<Party>)
    ensures Total(SortDesc(s)) == Total(s)
    decreases |s|
  {
    if s != [] {
      TotalSort(s[1..]);
      TotalInsert(s[0], SortDesc(s[1..]));
    }
  }

  lemma {:induction false} SumOverAppend(b: Ledger, a: seq<string>, c: seq<string>)
    ensures SumOver(b, a + c) == SumOver(b, a) + SumOver(b, c)
    decreases |a|
  {
    if a == [] {
      assert a + c == c;
    } else {
      assert (a + c)[0] == a[0] && (a + c)[1..] == a[1..] + c;
      SumOverAppend(b, a[1..], c);
    }
  }

  lemma SumOverLast(b: Ledger, keys: seq<string>)
    requires keys != []
    ensures SumOver(b, keys) == SumOver(b, keys[..|keys| - 1]) + Get(b, keys[|keys| - 1])
  {
    var init, x := keys[..|keys| - 1], keys[|keys| - 1];
    assert keys == init + [x];
    SumOverAppend(b, init, [x]);
    assert SumOver(b, [x]) == Get(b, x);
  }

  /**
   * What the creditors are owed minus what the debtors owe is the sum of the
   * balances, up to the people within a cent of zero, who are in neither list.
   */
  lemma {:induction false} CreditorsMinusDebtors(b: Ledger, keys: seq<string>)
    ensures SumOver(b, keys) - Tolerance * |keys| as real
         <= Total(Creditors(b, keys)) - Total(Debtors(b, keys))
         <= SumOver(b, keys) + Tolerance * |keys| as real
    decreases |keys|
  {
    if keys != [] {
      var init, x := keys[..|keys| - 1], keys[|keys| - 1];
      CreditorsMinusDebtors(b, init);
      SumOverLast(b, keys);
      var cx := if Get(b, x) > Tolerance then [Party(x, Get(b, x))] else [];
      var dx := if Get(b, x) < -Tolerance then [Party(x, Abs(Get(b, x)))] else [];
      assert Creditors(b, keys) == Creditors(b, init) + cx;
      assert Debtors(b, keys) == Debtors(b, init) + dx;
      TotalAppend(Creditors(b, init), cx);
      TotalAppend(Debtors(b, init), dx);
      OneKey(b, x);
    }
  }

  /** One person adds to the creditors' or the debtors' total their balance, unless it is within a cent of zero. */
  lemma OneKey(b: Ledger, x: string)
    ensures var cx := if Get(b, x) > Tolerance then [Party(x, Get(b, x))] else [];
      var dx := if Get(b, x) < -Tolerance then [Party(x, Abs(Get(b, x)))] else [];
      Get(b, x) - Tolerance <= Total(cx) - Total(dx) <= Get(b, x) + Tolerance
  {
  }

  /**
   * Taken exactly, the loop pays no debtor and no creditor more than their
   * list's total, and leaves one of the two lists settled to within less
   * than a cent per party.
   */
  lemma PlanUnsettled(b: Ledger, keys: seq<string>)
    ensures Moved(Steps(b, keys)) <= Total(Creditors(b, keys))
    ensures Moved(Steps(b, keys)) <= Total(Debtors(b, keys))
    ensures Total(Creditors(b, keys)) - Moved(Steps(b, keys)) <= Tolerance * |Creditors(b, keys)| as real
         || Total(Debtors(b, keys)) - Moved(Steps(b, keys)) <= Tolerance * |Debtors(b, keys)| as real
  {
    var c, d := Creditors(b, keys), Debtors(b, keys);
    SortedAtLeastCent(b, keys);
    GreedyUnsettled(SortDesc(c), SortDesc(d));
    TotalSort(c);
    TotalSort(d);
    SortDescSame(c);
    SortDescSame(d);
  }

  /**
   * Rounding to cents and leaving out payments of a cent or less changes the
   * amount moved by less than a cent and a half per step of the loop.
   */
  lemma {:induction false} EmitMoved(steps: seq<Settlement>)
    requires forall t :: t in steps ==> t.amount >= 0.0
    ensures Moved(steps) - 0.015 * |steps| as real <= Moved(Emit(steps)) <= Moved(steps) + 0.005 * |steps| as real
    decreases |steps|
  {
    if steps != [] {
      var u := steps[0];
      var head := if Round2(u.amount) > Tolerance then [Settlement(u.from, u.to, Round2(u.amount))] else [];
      assert forall t :: t in steps[1..] ==> t in steps;
      EmitMoved(steps[1..]);
      assert Emit(steps) == head + Emit(steps[1..]);
      assert Moved(head + Emit(steps[1..])) == Moved(head) + Moved(Emit(steps[1..])) by {
        if head != [] {
          assert (head + Emit(steps[1..]))[1..] == Emit(steps[1..]);
        } else {
          assert head + Emit(steps[1..]) == Emit(steps[1..]);
        }
      }
    }
  }

  /** `t` without its element at `k`. */
  function RemoveAt(t: seq<string>, k: int): seq<string>
    requires 0 <= k < |t|
  {
    t[..k] + t[k + 1..]
  }

  lemma SumOverRemoveAt(b: Ledger, t: seq<string>, k: int)
    requires 0 <= k < |t|
    ensures SumOver(b, t) == SumOver(b, RemoveAt(t, k)) + Get(b, t[k])
  {
    assert t == t[..k] + ([t[k]] + t[k + 1..]);
    SumOverAppend(b, t[..k], [t[k]] + t[k + 1..]);
    SumOverAppend(b, t[..k], t[k + 1..]);
    assert ([t[k]] + t[k + 1..])[1..] == t[k + 1..];
  }

  lemma RemoveAtSpec(t: seq<string>, k: int)
    requires Distinct(t) && 0 <= k < |t|
    ensures Distinct(RemoveAt(t, k))
    ensures forall y :: y in RemoveAt(t, k) <==> y in t && y != t[k]
  {
    var rest := RemoveAt(t, k);
    assert forall j :: 0 <= j < |rest| ==> rest[j] == t[if j < k then j else j + 1];
    forall y | y in t && y != t[k]
      ensures y in rest
    {
      var j :| 0 <= j < |t| && t[j] == y;
      assert rest[if j < k then j else j - 1] == y;
    }
  }

  lemma FirstIsMember(t: seq<string>)
    ensures t != [] ==> t[0] in t
  {
  }

  lemma {:induction false} SumOverPermutation(b: Ledger, s: seq<string>, t: seq<string>)
    requires Distinct(s) && Distinct(t)
    requires forall x :: x in s <==> x in t
    ensures SumOver(b, s) == SumOver(b, t)
    decreases |s|
  {
    if s == [] {
      FirstIsMember(t);
    } else {
      assert s[0] in t;
      var k :| 0 <= k < |t| && t[k] == s[0];
      SumOverRemoveAt(b, t, k);
      RemoveAtSpec(t, k);
      assert forall y :: y in s[1..] <==> y in s && y != s[0];
      SumOverPermutation(b, s[1..], RemoveAt(t, k));
    }
  }

  /**
   * When every expense's shares add up to its amount, the loop, taken
   * exactly, leaves at most two cents per person of the expense list
   * unsettled on either side: nobody is owed or owes much once the plan is
   * carried out.
   */
  lemma AllocatedPlanLeaves(es: seq<Expense>)
    requires forall i :: 0 <= i < |es| ==> FullyAllocated(es[i])
    ensures var b, keys := BalancesOf(es), KeysOf(es);
      var moved, n := Moved(Steps(b, keys)), |AllPeople(es)| as real;
      Total(Creditors(b, keys)) - moved <= 2.0 * Tolerance * n
      && Total(Debtors(b, keys)) - moved <= 2.0 * Tolerance * n
  {
    var b, keys := BalancesOf(es), KeysOf(es);
    Conservation(es);
    KeysOfSpec(es);
    AllPeopleSpec(es);
    SumOverPermutation(b, keys, AllPeople(es));
    CreditorsMinusDebtors(b, keys);
    PlanUnsettled(b, keys);
    PartitionSize(b, keys);
  }

  /**
   * The same for the published plan, whose amounts are rounded to cents and
   * whose payments of a cent or less are dropped: at most 3.5 cents per
   * person are left unsettled on either side, and rounding up never makes
   * the plan move more than half a cent per person beyond either side's
   * total.
   */
  lemma AllocatedPublishedLeaves(es: seq<Expense>)
    requires forall i :: 0 <= i < |es| ==> FullyAllocated(es[i])
    ensures var b, keys := BalancesOf(es), KeysOf(es);
      var paid, n := Moved(PlanOf(b, keys)), |AllPeople(es)| as real;
      Total(Creditors(b, keys)) - paid <= 0.035 * n
      && Total(Debtors(b, keys)) - paid <= 0.035 * n
      && paid <= Total(Creditors(b, keys)) + 0.005 * n
      && paid <= Total(Debtors(b, keys)) + 0.005 * n
  {
    var b, keys := BalancesOf(es), KeysOf(es);
    var c, d := Creditors(b, keys), Debtors(b, keys);
    AllocatedPlanLeaves(es);
    PlanUnsettled(b, keys);
    KeysOfSpec(es);
    SortDescSame(c);
    SortDescSame(d);
    GreedyLength(SortDesc(c), SortDesc(d));
    PartitionSize(b, keys);
    assert |Steps(b, keys)| <= |keys|;
    StepsPositive(b, keys);
    EmitMoved(Steps(b, keys));
  }

  /**
   * The head's `amount -= m` followed by the `shift()` of a head left with
   * less than a cent: one side of a round of the pairing loop.
   */
  method PayHead(s: seq<Party>, m: real) returns (r: seq<Party>)
    requires s != []
    ensures r == Reduce(s, m)
  {
    var party := s[0];
    party := party.(amount := party.amount - m);
    r := s[0 := party];
    if party.amount < Tolerance {
      ShiftUpdated(s, party);
      r := r[1..];
    }
  }

  /**
   * The pairing loop of `getSettlements`, after the partition and the sorts.
   * The head creditor's and debtor's amounts are updated in place and the
   * lists shifted, as in the controller.
   */
  method Settle(b: Ledger, keys: seq<string>) returns (settlements: seq<Settlement>)
    ensures settlements == PlanOf(b, keys)
  {
    var creditors, debtors := Partition(b, keys);
    creditors := SortDesc(creditors);
    debtors := SortDesc(debtors);
    settlements := [];
    while |creditors| > 0 && |debtors| > 0
      invariant settlements + Emit(Greedy(creditors, debtors)) == PlanOf(b, keys)
      decreases |creditors| + |debtors|
    {
      var creditor, debtor := creditors[0], debtors[0];
      var settlementAmount := Min(creditor.amount, debtor.amount);
      var roundedAmount := Round2(settlementAmount);
      ghost var done := settlements;
      ghost var head := if roundedAmount > Tolerance then [Settlement(debtor.person, creditor.person, roundedAmount)] else [];
      ghost var tail := Emit(Greedy(Reduce(creditors, settlementAmount), Reduce(debtors, settlementAmount)));
      EmitStep(creditors, debtors);
      if roundedAmount > Tolerance {
        settlements := settlements + [Settlement(debtor.person, creditor.person, roundedAmount)];
      }
      creditors := PayHead(creditors, settlementAmount);
      debtors := PayHead(debtors, settlementAmount);
      assert settlements == done + head;
      Associative(done, head, tail);
    }
    assert Greedy(creditors, debtors) == [];
  }

  /**
   * `getSettlements`, with the expense list passed in instead of read from
   * the database: the ledger of `calculateBalances`, visited in its key
   * order, settled by the pairing loop.
   */
  method GetSettlements(expenses: seq<Expense>) returns (settlements: seq<Settlement>)
    ensures settlements == PlanOf(BalancesOf(expenses), KeysOf(expenses))
    ensures forall t :: t in settlements ==>
      Get(BalancesOf(expenses), t.from) < -Tolerance && Get(BalancesOf(expenses), t.to) > Tolerance && t.amount > Tolerance
    ensures |settlements| < |AllPeople(expenses)| || settlements == []
  {
    var balances, keys := CalculateBalances(expenses);
    settlements := Settle(balances, keys);
    PlanParties(balances, keys);
    PlanLength(balances, keys);
    KeysOfSpec(expenses);
  }
}
