/**
 * What the ledger computed by the balance engine means.
 *
 * - Its keys are exactly the people the expense list mentions.
 * - A person's balance is what that person paid minus what that person owes,
 *   summed over the expenses (`PersonBalance`).
 * - The balances add up to the part of the amounts that the participants'
 *   shares leave unallocated, hence to zero when every split allocates its
 *   whole amount (`BalancesSum`, `Conservation`).
 */
module BalanceProperties {
  import opened ExpenseModel
  import opened Balances

  lemma {:induction false} DistinctTail(s: seq<string>)
    requires Distinct(s) && |s| > 0
    ensures Distinct(s[1..]) && s[0] !in s[1..]
  {
  }

  lemma DistributeDiv(a: real, x: real, y: real, d: real)
    requires d != 0.0
    ensures a * (x + y) / d == a * x / d + a * y / d
  {
  }

  lemma DivCancel(a: real, d: real)
    requires d != 0.0
    ensures a * d / d == a && a / d * d == a
  {
  }

  /** `share` added up `count` times. */
  function Repeat(share: real, count: nat): real
  {
    if count == 0 then 0.0 else share + Repeat(share, count - 1)
  }

  lemma {:induction false} RepeatIsProduct(share: real, count: nat)
    ensures Repeat(share, count) == share * count as real
  {
    if count > 0 {
      RepeatIsProduct(share, count - 1);
      assert share * count as real == share * (count - 1) as real + share;
    }
  }

  /** `count` equal parts of `amount` add up to `amount`. */
  lemma EqualPartsAddUp(amount: real, count: nat)
    requires count > 0
    ensures Repeat(amount / count as real, count) == amount
  {
    RepeatIsProduct(amount / count as real, count);
    DivCancel(amount, count as real);
  }

  lemma NamesTail(ps: seq<Participant>)
    requires |ps| > 0
    ensures Names(ps) == [ps[0].name] + Names(ps[1..])
  {
  }

  // ---------------------------------------------------------------------
  // Keys
  // ---------------------------------------------------------------------

  lemma {:induction false} DebitParticipantsKeys(b: Ledger, amount: real, totalUnits: real, ps: seq<Participant>)
    ensures forall x :: x in DebitParticipants(b, amount, totalUnits, ps) <==> x in b || x in Names(ps)
    decreases |ps|
  {
    if ps != [] {
      NamesTail(ps);
      DebitParticipantsKeys(Adjust(b, ps[0].name, -ShareAmount(amount, totalUnits, ps[0])), amount, totalUnits, ps[1..]);
    }
  }

  lemma {:induction false} SplitEquallyKeys(b: Ledger, people: seq<string>, share: real)
    ensures forall x :: x in SplitEqually(b, people, share) <==> x in b || x in people
    decreases |people|
  {
    if people != [] {
      assert people == [people[0]] + people[1..];
      SplitEquallyKeys(Adjust(b, people[0], -share), people[1..], share);
    }
  }

  lemma ApplyExpenseKeys(b: Ledger, e: Expense, allPeople: seq<string>)
    ensures forall x :: x in ApplyExpense(b, e, allPeople) <==>
      x in b || x == e.paidBy || x in Names(e.participants) || (|e.participants| == 0 && x in allPeople)
  {
    var credited := Adjust(b, e.paidBy, e.amount);
    DebitParticipantsKeys(credited, e.amount, TotalUnits(e.participants), e.participants);
    if |e.participants| == 0 && |allPeople| > 0 {
      SplitEquallyKeys(credited, allPeople, e.amount / |allPeople| as real);
    }
  }

  lemma {:induction false} ApplyAllKeys(b: Ledger, es: seq<Expense>, allPeople: seq<string>)
    requires forall x :: x in allPeople ==> x in b || x in Mentions(es)
    ensures forall x :: x in ApplyAll(b, es, allPeople) <==> x in b || x in Mentions(es)
    decreases |es|
  {
    if es != [] {
      var e := es[0];
      assert Mentions(es) == [e.paidBy] + Names(e.participants) + Mentions(es[1..]);
      ApplyExpenseKeys(b, e, allPeople);
      ApplyAllKeys(ApplyExpense(b, e, allPeople), es[1..], allPeople);
    }
  }

  /**
   * The ledger has an entry for exactly the people mentioned anywhere in the
   * expense list (payers and participants); an empty list gives an empty ledger.
   */
  lemma BalancesKeys(es: seq<Expense>)
    ensures forall x :: x in BalancesOf(es) <==> x in Mentions(es)
    ensures es == [] ==> BalancesOf(es) == map[]
  {
    AllPeopleSpec(es);
    ApplyAllKeys(map[], es, AllPeople(es));
  }

  /** Every payer is in `allPeople`, so the equal split never divides by zero. */
  lemma PayerKnown(es: seq<Expense>, i: int)
    requires 0 <= i < |es|
    ensures es[i].paidBy in AllPeople(es)
    ensures |AllPeople(es)| > 0
  {
    MentionsCover(es, i);
    AllPeopleSpec(es);
  }

  lemma {:induction false} TouchedAllMembers(es: seq<Expense>, allPeople: seq<string>)
    ensures forall x :: x in Mentions(es) ==> x in TouchedAll(es, allPeople)
    ensures forall x :: x in TouchedAll(es, allPeople) ==> x in Mentions(es) || x in allPeople
    decreases |es|
  {
    if es != [] {
      var e := es[0];
      assert Mentions(es) == [e.paidBy] + Names(e.participants) + Mentions(es[1..]);
      assert |e.participants| == 0 ==> Names(e.participants) == [];
      TouchedAllMembers(es[1..], allPeople);
    }
  }

  lemma {:induction false} DistinctCard(s: seq<string>)
    requires Distinct(s)
    ensures |set x | x in s| == |s|
    decreases |s|
  {
    if s != [] {
      DistinctTail(s);
      DistinctCard(s[1..]);
      assert (set x | x in s) == (set x | x in s[1..]) + {s[0]};
    }
  }

  /**
   * The key order of the ledger lists every mentioned person once: as many
   * keys as there are people.
   */
  lemma KeysOfSpec(es: seq<Expense>)
    ensures Distinct(KeysOf(es))
    ensures forall x :: x in KeysOf(es) <==> x in Mentions(es)
    ensures |KeysOf(es)| == |AllPeople(es)|
  {
    AllPeopleSpec(es);
    UniqueFromSpec([], TouchedAll(es, AllPeople(es)));
    TouchedAllMembers(es, AllPeople(es));
    DistinctCard(KeysOf(es));
    DistinctCard(AllPeople(es));
    assert (set x | x in KeysOf(es)) == (set x | x in AllPeople(es));
  }

  // ---------------------------------------------------------------------
  // One person's balance
  // ---------------------------------------------------------------------

  /** What the participant entries named `x` owe for one expense. */
  function OwedBy(amount: real, totalUnits: real, ps: seq<Participant>, x: string): real
    decreases |ps|
  {
    if ps == [] then 0.0
    else (if ps[0].name == x then ShareAmount(amount, totalUnits, ps[0]) else 0.0)
         + OwedBy(amount, totalUnits, ps[1..], x)
  }

  /** What `x` owes for expense `e`: its participant shares, or its equal part when `e` lists nobody. */
  function Owes(e: Expense, x: string, allPeople: seq<string>): real
  {
    if |e.participants| > 0 then OwedBy(e.amount, TotalUnits(e.participants), e.participants, x)
    else if x in allPeople then e.amount / |allPeople| as real
    else 0.0
  }

  /** How expense `e` moves the balance of `x`: what `x` paid minus what `x` owes. */
  function Net(e: Expense, x: string, allPeople: seq<string>): real
  {
    (if x == e.paidBy then e.amount else 0.0) - Owes(e, x, allPeople)
  }

  function NetTotal(es: seq<Expense>, x: string, allPeople: seq<string>): real
    decreases |es|
  {
    if es == [] then 0.0 else Net(es[0], x, allPeople) + NetTotal(es[1..], x, allPeople)
  }

  lemma {:induction false} DebitParticipantsAt(b: Ledger, amount: real, totalUnits: real, ps: seq<Participant>, x: string)
    ensures Get(DebitParticipants(b, amount, totalUnits, ps), x) == Get(b, x) - OwedBy(amount, totalUnits, ps, x)
    decreases |ps|
  {
    if ps != [] {
      DebitParticipantsAt(Adjust(b, ps[0].name, -ShareAmount(amount, totalUnits, ps[0])), amount, totalUnits, ps[1..], x);
    }
  }

  lemma {:induction false} SplitEquallyAt(b: Ledger, people: seq<string>, share: real, x: string)
    requires Distinct(people)
    ensures Get(SplitEqually(b, people, share), x) == Get(b, x) - (if x in people then share else 0.0)
    decreases |people|
  {
    if people != [] {
      DistinctTail(people);
      assert x in people <==> x == people[0] || x in people[1..];
      SplitEquallyAt(Adjust(b, people[0], -share), people[1..], share, x);
    }
  }

  /**
   * One expense credits its payer with exactly its amount and debits each
   * person by what that person owes for it; nobody else changes.
   */
  lemma ApplyExpenseAt(b: Ledger, e: Expense, allPeople: seq<string>, x: string)
    requires Distinct(allPeople)
    ensures Get(ApplyExpense(b, e, allPeople), x) == Get(b, x) + Net(e, x, allPeople)
  {
    var credited := Adjust(b, e.paidBy, e.amount);
    if |e.participants| > 0 {
      DebitParticipantsAt(credited, e.amount, TotalUnits(e.participants), e.participants, x);
    } else if |allPeople| > 0 {
      SplitEquallyAt(credited, allPeople, e.amount / |allPeople| as real, x);
    }
  }

  lemma {:induction false} ApplyAllAt(b: Ledger, es: seq<Expense>, allPeople: seq<string>, x: string)
    requires Distinct(allPeople)
    ensures Get(ApplyAll(b, es, allPeople), x) == Get(b, x) + NetTotal(es, x, allPeople)
    decreases |es|
  {
    if es != [] {
      ApplyExpenseAt(b, es[0], allPeople, x);
      ApplyAllAt(ApplyExpense(b, es[0], allPeople), es[1..], allPeople, x);
    }
  }

  /**
   * A person's balance is the sum, over all expenses, of what the person paid
   * minus what the person owes.
   */
  lemma PersonBalance(es: seq<Expense>, x: string)
    ensures Get(BalancesOf(es), x) == NetTotal(es, x, AllPeople(es))
  {
    AllPeopleSpec(es);
    ApplyAllAt(map[], es, AllPeople(es), x);
  }

  // ---------------------------------------------------------------------
  // Conservation
  // ---------------------------------------------------------------------

  /** The sum of the balances of the listed people. */
  function SumOver(b: Ledger, keys: seq<string>): real
    decreases |keys|
  {
    if keys == [] then 0.0 else Get(b, keys[0]) + SumOver(b, keys[1..])
  }

  /** The sum of the participant shares of one expense. */
  function Owed(amount: real, totalUnits: real, ps: seq<Participant>): real
    decreases |ps|
  {
    if ps == [] then 0.0 else ShareAmount(amount, totalUnits, ps[0]) + Owed(amount, totalUnits, ps[1..])
  }

  /** The part of an expense's amount its participant shares do not cover (0 for an equal split). */
  function Leftover(e: Expense): real
  {
    if |e.participants| > 0 then e.amount - Owed(e.amount, TotalUnits(e.participants), e.participants)
    else 0.0
  }

  function TotalLeftover(es: seq<Expense>): real
    decreases |es|
  {
    if es == [] then 0.0 else Leftover(es[0]) + TotalLeftover(es[1..])
  }

  /** The shares of `e` add up to its amount; an expense split equally always does. */
  predicate FullyAllocated(e: Expense)
  {
    |e.participants| == 0 || Owed(e.amount, TotalUnits(e.participants), e.participants) == e.amount
  }

  lemma {:induction false} SumAdjust(b: Ledger, keys: seq<string>, x: string, delta: real)
    requires Distinct(keys)
    ensures SumOver(Adjust(b, x, delta), keys) == SumOver(b, keys) + (if x in keys then delta else 0.0)
    decreases |keys|
  {
    if keys != [] {
      DistinctTail(keys);
      assert x in keys <==> x == keys[0] || x in keys[1..];
      SumAdjust(b, keys[1..], x, delta);
    }
  }

  lemma {:induction false} SumEmpty(keys: seq<string>)
    ensures SumOver(map[], keys) == 0.0
    decreases |keys|
  {
    if keys != [] {
      SumEmpty(keys[1..]);
    }
  }

  lemma {:induction false} SumDebitParticipants(b: Ledger, amount: real, totalUnits: real, ps: seq<Participant>, keys: seq<string>)
    requires Distinct(keys)
    requires forall x :: x in Names(ps) ==> x in keys
    ensures SumOver(DebitParticipants(b, amount, totalUnits, ps), keys) == SumOver(b, keys) - Owed(amount, totalUnits, ps)
    decreases |ps|
  {
    if ps != [] {
      NamesTail(ps);
      var share := ShareAmount(amount, totalUnits, ps[0]);
      SumAdjust(b, keys, ps[0].name, -share);
      SumDebitParticipants(Adjust(b, ps[0].name, -share), amount, totalUnits, ps[1..], keys);
    }
  }

  lemma {:induction false} SumSplitEqually(b: Ledger, people: seq<string>, share: real, keys: seq<string>)
    requires Distinct(keys)
    requires forall i :: 0 <= i < |people| ==> people[i] in keys
    ensures SumOver(SplitEqually(b, people, share), keys) == SumOver(b, keys) - Repeat(share, |people|)
    decreases |people|
  {
    if people != [] {
      SumSplitEqually(Adjust(b, people[0], -share), people[1..], share, keys);
      SumAdjust(b, keys, people[0], -share);
    }
  }

  /** One expense raises the sum of the balances by its amount minus what its shares allocate. */
  lemma SumApplyExpense(b: Ledger, e: Expense, allPeople: seq<string>)
    requires Distinct(allPeople)
    requires e.paidBy in allPeople
    requires forall x :: x in Names(e.participants) ==> x in allPeople
    ensures SumOver(ApplyExpense(b, e, allPeople), allPeople) == SumOver(b, allPeople) + Leftover(e)
  {
    var credited := Adjust(b, e.paidBy, e.amount);
    SumAdjust(b, allPeople, e.paidBy, e.amount);
    if |e.participants| > 0 {
      SumDebitParticipants(credited, e.amount, TotalUnits(e.participants), e.participants, allPeople);
    } else {
      var share := e.amount / |allPeople| as real;
      assert ApplyExpense(b, e, allPeople) == SplitEqually(credited, allPeople, share);
      assert forall i :: 0 <= i < |allPeople| ==> allPeople[i] in allPeople;
      SumSplitEqually(credited, allPeople, share, allPeople);
      EqualPartsAddUp(e.amount, |allPeople|);
    }
  }

  lemma {:induction false} SumApplyAll(b: Ledger, es: seq<Expense>, allPeople: seq<string>)
    requires Distinct(allPeople)
    requires forall x :: x in Mentions(es) ==> x in allPeople
    ensures SumOver(ApplyAll(b, es, allPeople), allPeople) == SumOver(b, allPeople) + TotalLeftover(es)
    decreases |es|
  {
    if es != [] {
      var e := es[0];
      assert Mentions(es) == [e.paidBy] + Names(e.participants) + Mentions(es[1..]);
      SumApplyExpense(b, e, allPeople);
      SumApplyAll(ApplyExpense(b, e, allPeople), es[1..], allPeople);
    }
  }

  /** The balances of everybody add up to what the participant shares leave unallocated. */
  lemma BalancesSum(es: seq<Expense>)
    ensures SumOver(BalancesOf(es), AllPeople(es)) == TotalLeftover(es)
  {
    AllPeopleSpec(es);
    SumEmpty(AllPeople(es));
    SumApplyAll(map[], es, AllPeople(es));
  }

  lemma {:induction false} TotalLeftoverZero(es: seq<Expense>)
    requires forall i :: 0 <= i < |es| ==> FullyAllocated(es[i])
    ensures TotalLeftover(es) == 0.0
    decreases |es|
  {
    if es != [] {
      assert FullyAllocated(es[0]);
      TotalLeftoverZero(es[1..]);
    }
  }

  /**
   * Conservation: when every expense's shares add up to its amount (equal
   * splits always do), the balances of all people add up to zero.
   */
  lemma Conservation(es: seq<Expense>)
    requires forall i :: 0 <= i < |es| ==> FullyAllocated(es[i])
    ensures SumOver(BalancesOf(es), AllPeople(es)) == 0.0
  {
    BalancesSum(es);
    TotalLeftoverZero(es);
  }

  // ---------------------------------------------------------------------
  // What the shares of one expense add up to
  // ---------------------------------------------------------------------

  function PercentOf(p: Participant): real
  {
    if p.splitType == Percentage then p.share else 0.0
  }

  function ExactOf(p: Participant): real
  {
    if p.splitType == Exact then p.share else 0.0
  }

  function PercentTotal(ps: seq<Participant>): real
    decreases |ps|
  {
    if ps == [] then 0.0 else PercentOf(ps[0]) + PercentTotal(ps[1..])
  }

  function ExactTotal(ps: seq<Participant>): real
    decreases |ps|
  {
    if ps == [] then 0.0 else ExactOf(ps[0]) + ExactTotal(ps[1..])
  }

  /** What the participants of `ps` whose split is of kind `k` owe, added up. */
  function KindPart(amount: real, totalUnits: real, ps: seq<Participant>, k: SplitType): real
    decreases |ps|
  {
    if ps == [] then 0.0
    else (if ps[0].splitType == k then ShareAmount(amount, totalUnits, ps[0]) else 0.0)
         + KindPart(amount, totalUnits, ps[1..], k)
  }

  lemma Distribute(a: real, x: real, y: real, z: real, d: real)
    requires d != 0.0 && z == x + y
    ensures a * z / d == a * x / d + a * y / d
  {
    DistributeDiv(a, x, y, d);
  }

  lemma UnitsShare(amount: real, totalUnits: real, p: Participant)
    requires totalUnits > 0.0
    ensures (if p.splitType == Units then ShareAmount(amount, totalUnits, p) else 0.0)
         == amount * UnitsOf(p) / totalUnits
  {
    if p.splitType != Units {
      assert UnitsOf(p) == 0.0;
    }
  }

  lemma {:induction false} PercentPartIs(amount: real, totalUnits: real, ps: seq<Participant>)
    ensures KindPart(amount, totalUnits, ps, Percentage) == amount * PercentTotal(ps) / 100.0
    decreases |ps|
  {
    if ps != [] {
      PercentPartIs(amount, totalUnits, ps[1..]);
      Distribute(amount, PercentOf(ps[0]), PercentTotal(ps[1..]), PercentTotal(ps), 100.0);
    }
  }

  lemma {:induction false} ExactPartIs(amount: real, totalUnits: real, ps: seq<Participant>)
    ensures KindPart(amount, totalUnits, ps, Exact) == ExactTotal(ps)
    decreases |ps|
  {
    if ps != [] {
      ExactPartIs(amount, totalUnits, ps[1..]);
    }
  }

  lemma {:induction false} UnitsPartIs(amount: real, totalUnits: real, ps: seq<Participant>)
    requires totalUnits > 0.0
    ensures KindPart(amount, totalUnits, ps, Units) == amount * TotalUnits(ps) / totalUnits
    decreases |ps|
  {
    if ps != [] {
      UnitsPartIs(amount, totalUnits, ps[1..]);
      UnitsShare(amount, totalUnits, ps[0]);
      Distribute(amount, UnitsOf(ps[0]), TotalUnits(ps[1..]), TotalUnits(ps), totalUnits);
    }
  }

  lemma {:induction false} UnitsPartVoid(amount: real, totalUnits: real, ps: seq<Participant>)
    requires totalUnits <= 0.0
    ensures KindPart(amount, totalUnits, ps, Units) == 0.0
    decreases |ps|
  {
    if ps != [] {
      UnitsPartVoid(amount, totalUnits, ps[1..]);
    }
  }

  /** What the participants owe splits by kind of share. */
  lemma {:induction false} OwedByKind(amount: real, totalUnits: real, ps: seq<Participant>)
    ensures Owed(amount, totalUnits, ps)
         == KindPart(amount, totalUnits, ps, Percentage) + KindPart(amount, totalUnits, ps, Exact)
          + KindPart(amount, totalUnits, ps, Units)
    decreases |ps|
  {
    if ps != [] {
      OwedByKind(amount, totalUnits, ps[1..]);
    }
  }

  /**
   * Each kind of split is applied to the whole amount independently: the
   * percentages take their part of it, the exact shares their face value, and
   * the "share" units, when they add up to something positive, all of it.
   */
  lemma OwedSplit(amount: real, totalUnits: real, ps: seq<Participant>)
    ensures Owed(amount, totalUnits, ps)
         == amount * PercentTotal(ps) / 100.0 + ExactTotal(ps)
          + (if totalUnits > 0.0 then amount * TotalUnits(ps) / totalUnits else 0.0)
  {
    OwedByKind(amount, totalUnits, ps);
    PercentPartIs(amount, totalUnits, ps);
    ExactPartIs(amount, totalUnits, ps);
    if totalUnits > 0.0 {
      UnitsPartIs(amount, totalUnits, ps);
    } else {
      UnitsPartVoid(amount, totalUnits, ps);
    }
  }

  /** With the units counted over the same participants, the unit shares take the whole amount. */
  lemma OwedOwnUnits(amount: real, ps: seq<Participant>)
    ensures Owed(amount, TotalUnits(ps), ps)
         == amount * PercentTotal(ps) / 100.0 + ExactTotal(ps)
          + (if TotalUnits(ps) > 0.0 then amount else 0.0)
  {
    var t := TotalUnits(ps);
    OwedSplit(amount, t, ps);
    var units := if t > 0.0 then amount * t / t else 0.0;
    assert units == (if t > 0.0 then amount else 0.0) by {
      if t > 0.0 { DivCancel(amount, t); }
    }
  }

  /**
   * An expense with participants allocates its whole amount exactly when its
   * percentage part, its exact shares and its unit shares (worth the whole
   * amount when their units add up to something positive) sum to the amount.
   */
  lemma FullyAllocatedIff(e: Expense)
    requires |e.participants| > 0
    ensures FullyAllocated(e) <==>
      e.amount * PercentTotal(e.participants) / 100.0 + ExactTotal(e.participants)
      + (if TotalUnits(e.participants) > 0.0 then e.amount else 0.0) == e.amount
  {
    OwedOwnUnits(e.amount, e.participants);
  }
}
