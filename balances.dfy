/**
 * The balance engine of the settlement controller: the expense list is folded
 * into a ledger that maps every person to a signed balance (positive: the
 * person is owed money, negative: the person owes money).
 *
 * The recursive functions below are the reference definition of the fold;
 * `CollectPeople` and `CalculateBalances` are the loops of the controller,
 * proved to compute exactly that definition. The lemmas state what the
 * ledger means: who appears in it, how much each person's balance is, and
 * that the balances add up to what the splits leave unallocated.
 */
module Balances {
  import opened ExpenseModel

  /** Person -> signed balance. A person absent from the map has balance 0. */
  type Ledger = map<string, real>

  predicate Distinct(s: seq<string>)
  {
    forall i, j :: 0 <= i < j < |s| ==> s[i] != s[j]
  }

  /** The balance of `x`, reading an absent entry as 0. */
  function Get(b: Ledger, x: string): real
  {
    if x in b then b[x] else 0.0
  }

  /** Adds `delta` to the balance of `x`, creating the entry at 0 first. */
  function Adjust(b: Ledger, x: string, delta: real): (r: Ledger)
    ensures r.Keys == b.Keys + {x}
    ensures Get(r, x) == Get(b, x) + delta
    ensures forall y :: y != x ==> Get(r, y) == Get(b, y)
  {
    b[x := Get(b, x) + delta]
  }

  // ---------------------------------------------------------------------
  // The people of an expense list
  // ---------------------------------------------------------------------

  function Names(ps: seq<Participant>): (r: seq<string>)
    ensures |r| == |ps|
  {
    seq(|ps|, i requires 0 <= i < |ps| => ps[i].name)
  }

  /** Every name the expense list mentions, in order: each payer, then that expense's participants. */
  function Mentions(es: seq<Expense>): seq<string>
  {
    if es == [] then [] else [es[0].paidBy] + Names(es[0].participants) + Mentions(es[1..])
  }

  /** Appends the elements of `s` not seen yet, in order: what adding them to a `Set` does. */
  function UniqueFrom(seen: seq<string>, s: seq<string>): seq<string>
    decreases |s|
  {
    if s == [] then seen
    else UniqueFrom(if s[0] in seen then seen else seen + [s[0]], s[1..])
  }

  /** The `allPeople` set in insertion order: the first mention of each person. */
  function AllPeople(es: seq<Expense>): seq<string>
  {
    UniqueFrom([], Mentions(es))
  }

  lemma {:induction false} UniqueFromSpec(seen: seq<string>, s: seq<string>)
    requires Distinct(seen)
    ensures Distinct(UniqueFrom(seen, s))
    ensures forall x :: x in UniqueFrom(seen, s) <==> x in seen || x in s
    ensures |seen| <= |UniqueFrom(seen, s)| && UniqueFrom(seen, s)[..|seen|] == seen
    decreases |s|
  {
    if s != [] {
      var next := if s[0] in seen then seen else seen + [s[0]];
      UniqueFromSpec(next, s[1..]);
      assert s == [s[0]] + s[1..];
    }
  }

  /** The people list holds every mentioned person exactly once. */
  lemma AllPeopleSpec(es: seq<Expense>)
    ensures Distinct(AllPeople(es))
    ensures forall x :: x in AllPeople(es) <==> x in Mentions(es)
  {
    UniqueFromSpec([], Mentions(es));
  }

  lemma {:induction false} MentionsAt(es: seq<Expense>, i: int)
    requires 0 <= i < |es|
    ensures Mentions(es[i..]) == [es[i].paidBy] + Names(es[i].participants) + Mentions(es[i + 1..])
  {
    assert es[i..][0] == es[i];
    assert es[i..][1..] == es[i + 1..];
  }

  /** Every payer and every participant of every expense is mentioned. */
  lemma {:induction false} MentionsCover(es: seq<Expense>, i: int)
    requires 0 <= i < |es|
    ensures es[i].paidBy in Mentions(es)
    ensures forall x :: x in Names(es[i].participants) ==> x in Mentions(es)
  {
    if i > 0 {
      MentionsCover(es[1..], i - 1);
      assert es[1..][i - 1] == es[i];
    }
  }

  lemma {:induction false} UniqueFromAppend(seen: seq<string>, a: seq<string>, b: seq<string>)
    ensures UniqueFrom(seen, a + b) == UniqueFrom(UniqueFrom(seen, a), b)
    decreases |a|
  {
    if a == [] {
      assert a + b == b;
    } else {
      assert (a + b)[0] == a[0] && (a + b)[1..] == a[1..] + b;
      UniqueFromAppend(if a[0] in seen then seen else seen + [a[0]], a[1..], b);
    }
  }

  lemma NamesFrom(ps: seq<Participant>, j: int)
    requires 0 <= j < |ps|
    ensures Names(ps[j..])[0] == ps[j].name && Names(ps[j..])[1..] == Names(ps[j + 1..])
  {
  }

  lemma UniqueFromFirst(seen: seq<string>, s: seq<string>)
    requires s != []
    ensures UniqueFrom(seen, s) == UniqueFrom(UniqueFrom(seen, [s[0]]), s[1..])
  {
    assert [s[0]][1..] == [];
  }

  /** The inner loop: adds the name of each participant to the set. */
  method AddNames(people: seq<string>, ps: seq<Participant>) returns (result: seq<string>)
    ensures result == UniqueFrom(people, Names(ps))
  {
    result := people;
    var j := 0;
    while j < |ps|
      invariant 0 <= j <= |ps|
      invariant UniqueFrom(result, Names(ps[j..])) == UniqueFrom(people, Names(ps))
    {
      var name := ps[j].name;
      assert Names(ps[j..])[0] == name && Names(ps[j..])[1..] == Names(ps[j + 1..]);
      if name !in result {
        result := result + [name];
      }
      j := j + 1;
    }
    assert Names(ps[j..]) == [];
  }

  /**
   * The people-collection loop shared by `calculateBalances` and `getPeople`:
   * each payer, then the names of that expense's participants, added to an
   * insertion-ordered set.
   */
  method CollectPeople(expenses: seq<Expense>) returns (people: seq<string>)
    ensures people == AllPeople(expenses)
    ensures Distinct(people)
    ensures forall x :: x in people <==> x in Mentions(expenses)
  {
    people := [];
    var i := 0;
    while i < |expenses|
      invariant 0 <= i <= |expenses|
      invariant UniqueFrom(people, Mentions(expenses[i..])) == AllPeople(expenses)
    {
      var expense := expenses[i];
      ghost var rest := Mentions(expenses[i + 1..]);
      ghost var names := Names(expense.participants);
      MentionsAt(expenses, i);
      assert Mentions(expenses[i..]) == [expense.paidBy] + (names + rest);
      assert ([expense.paidBy] + (names + rest))[0] == expense.paidBy;
      assert ([expense.paidBy] + (names + rest))[1..] == names + rest;
      if expense.paidBy !in people {
        people := people + [expense.paidBy];
      }
      UniqueFromAppend(people, names, rest);
      if |expense.participants| > 0 {
        people := AddNames(people, expense.participants);
      } else {
        assert names == [];
      }
      i := i + 1;
    }
    AllPeopleSpec(expenses);
  }

  // ---------------------------------------------------------------------
  // The fold
  // ---------------------------------------------------------------------

  function UnitsOf(p: Participant): real
  {
    if p.splitType == Units then p.share else 0.0
  }

  /** The sum of the shares of this expense's "share"-typed participants. */
  function TotalUnits(ps: seq<Participant>): real
  {
    if ps == [] then 0.0 else UnitsOf(ps[0]) + TotalUnits(ps[1..])
  }

  /** What one participant owes for an expense of `amount`. */
  function ShareAmount(amount: real, totalUnits: real, p: Participant): real
  {
    match p.splitType
    case Percentage => amount * p.share / 100.0
    case Exact => p.share
    case Units => if totalUnits > 0.0 then amount * p.share / totalUnits else 0.0
  }

  /** Debits each participant, in order, by its share. */
  function DebitParticipants(b: Ledger, amount: real, totalUnits: real, ps: seq<Participant>): Ledger
    decreases |ps|
  {
    if ps == [] then b
    else DebitParticipants(Adjust(b, ps[0].name, -ShareAmount(amount, totalUnits, ps[0])), amount, totalUnits, ps[1..])
  }

  /** Debits every listed person by the same amount. */
  function SplitEqually(b: Ledger, people: seq<string>, share: real): Ledger
    decreases |people|
  {
    if people == [] then b else SplitEqually(Adjust(b, people[0], -share), people[1..], share)
  }

  /**
   * One expense: the payer is credited with the amount; the participants are
   * debited by their shares, or, when there are none, everybody in
   * `allPeople` is debited by an equal part.
   */
  function ApplyExpense(b: Ledger, e: Expense, allPeople: seq<string>): Ledger
  {
    var credited := Adjust(b, e.paidBy, e.amount);
    if |e.participants| > 0 then
      DebitParticipants(credited, e.amount, TotalUnits(e.participants), e.participants)
    else if |allPeople| == 0 then
      credited
    else
      SplitEqually(credited, allPeople, e.amount / |allPeople| as real)
  }

  function ApplyAll(b: Ledger, es: seq<Expense>, allPeople: seq<string>): Ledger
    decreases |es|
  {
    if es == [] then b else ApplyAll(ApplyExpense(b, es[0], allPeople), es[1..], allPeople)
  }

  /** The ledger `calculateBalances` returns for an expense list. */
  function BalancesOf(es: seq<Expense>): Ledger
  {
    ApplyAll(map[], es, AllPeople(es))
  }

  /**
   * The people one expense posts to, in order: the payer, then the
   * participants, or everybody in `allPeople` when it lists none.
   */
  function Touched(e: Expense, allPeople: seq<string>): seq<string>
  {
    [e.paidBy] + (if |e.participants| > 0 then Names(e.participants) else allPeople)
  }

  function TouchedAll(es: seq<Expense>, allPeople: seq<string>): seq<string>
    decreases |es|
  {
    if es == [] then [] else Touched(es[0], allPeople) + TouchedAll(es[1..], allPeople)
  }

  /** The key order of the ledger: each person where its balance was first created. */
  function KeysOf(es: seq<Expense>): seq<string>
  {
    UniqueFrom([], TouchedAll(es, AllPeople(es)))
  }

  /** `keys` lists the keys of `b`, each once: the key order of a JavaScript object. */
  ghost predicate KeyOrder(b: Ledger, keys: seq<string>)
  {
    Distinct(keys) && forall x :: x in keys <==> x in b
  }

  /**
   * `if (!balances[x]) balances[x] = 0; balances[x] += delta`: a missing entry
   * is created at 0, last in key order, then adjusted.
   */
  method Post(b: Ledger, keys: seq<string>, x: string, delta: real) returns (b': Ledger, keys': seq<string>)
    requires KeyOrder(b, keys)
    ensures b' == Adjust(b, x, delta)
    ensures keys' == UniqueFrom(keys, [x])
    ensures KeyOrder(b', keys')
  {
    b', keys' := b, keys;
    if x !in b' {
      b', keys' := b'[x := 0.0], keys' + [x];
    }
    b' := b'[x := b'[x] + delta];
  }

  /** The split-type dispatch that computes one participant's `shareAmount`. */
  method ComputeShare(amount: real, ps: seq<Participant>, participant: Participant) returns (shareAmount: real)
    ensures shareAmount == ShareAmount(amount, TotalUnits(ps), participant)
  {
    shareAmount := 0.0;
    if participant.splitType == Percentage {
      shareAmount := amount * participant.share / 100.0;
    } else if participant.splitType == Exact {
      shareAmount := participant.share;
    } else if participant.splitType == Units {
      var totalShares := TotalUnits(ps);
      if totalShares > 0.0 {
        shareAmount := amount * participant.share / totalShares;
      }
    }
  }

  lemma DebitStep(b: Ledger, amount: real, totalUnits: real, ps: seq<Participant>, j: int)
    requires 0 <= j < |ps|
    ensures DebitParticipants(b, amount, totalUnits, ps[j..])
         == DebitParticipants(Adjust(b, ps[j].name, -ShareAmount(amount, totalUnits, ps[j])), amount, totalUnits, ps[j + 1..])
  {
    assert ps[j..][0] == ps[j] && ps[j..][1..] == ps[j + 1..];
  }

  /**
   * The `forEach` callback for participant `j`: create its entry if missing,
   * then debit its share. The debits still to come after it are those the
   * fold has left after it.
   */
  method DebitOne(b: Ledger, keys: seq<string>, amount: real, ps: seq<Participant>, j: int)
    returns (balances: Ledger, keys': seq<string>)
    requires 0 <= j < |ps|
    requires KeyOrder(b, keys)
    ensures balances == Adjust(b, ps[j].name, -ShareAmount(amount, TotalUnits(ps), ps[j]))
    ensures DebitParticipants(balances, amount, TotalUnits(ps), ps[j + 1..]) == DebitParticipants(b, amount, TotalUnits(ps), ps[j..])
    ensures UniqueFrom(keys', Names(ps[j + 1..])) == UniqueFrom(keys, Names(ps[j..]))
    ensures KeyOrder(balances, keys')
  {
    var shareAmount := ComputeShare(amount, ps, ps[j]);
    balances, keys' := Post(b, keys, ps[j].name, -shareAmount);
    DebitOneStep(b, keys, amount, ps, j, balances, keys');
  }

  lemma DebitOneStep(b: Ledger, keys: seq<string>, amount: real, ps: seq<Participant>, j: int, b': Ledger, keys': seq<string>)
    requires 0 <= j < |ps|
    requires b' == Adjust(b, ps[j].name, -ShareAmount(amount, TotalUnits(ps), ps[j]))
    requires keys' == UniqueFrom(keys, [ps[j].name])
    ensures DebitParticipants(b', amount, TotalUnits(ps), ps[j + 1..]) == DebitParticipants(b, amount, TotalUnits(ps), ps[j..])
    ensures UniqueFrom(keys', Names(ps[j + 1..])) == UniqueFrom(keys, Names(ps[j..]))
  {
    DebitStep(b, amount, TotalUnits(ps), ps, j);
    NamesFrom(ps, j);
    UniqueFromFirst(keys, Names(ps[j..]));
  }

  /** The participants' `forEach` of one expense. */
  method DebitEach(b: Ledger, keys: seq<string>, amount: real, ps: seq<Participant>)
    returns (balances: Ledger, keys': seq<string>)
    requires KeyOrder(b, keys)
    ensures balances == DebitParticipants(b, amount, TotalUnits(ps), ps)
    ensures keys' == UniqueFrom(keys, Names(ps))
    ensures KeyOrder(balances, keys')
  {
    balances, keys' := b, keys;
    var j := 0;
    while j < |ps|
      invariant 0 <= j <= |ps|
      invariant DebitParticipants(balances, amount, TotalUnits(ps), ps[j..]) == DebitParticipants(b, amount, TotalUnits(ps), ps)
      invariant UniqueFrom(keys', Names(ps[j..])) == UniqueFrom(keys, Names(ps))
      invariant KeyOrder(balances, keys')
    {
      balances, keys' := DebitOne(balances, keys', amount, ps, j);
      j := j + 1;
    }
    assert Names(ps[j..]) == [];
  }

  /** The `forEach` callback for one person of an equal split. */
  method DebitPerson(b: Ledger, keys: seq<string>, person: string, sharePerPerson: real)
    returns (balances: Ledger, keys': seq<string>)
    requires KeyOrder(b, keys)
    ensures balances == Adjust(b, person, -sharePerPerson)
    ensures keys' == UniqueFrom(keys, [person])
    ensures KeyOrder(balances, keys')
  {
    balances, keys' := Post(b, keys, person, -sharePerPerson);
  }

  /** The equal split over `allPeople` of an expense without participants. */
  method DebitAll(b: Ledger, keys: seq<string>, people: seq<string>, sharePerPerson: real)
    returns (balances: Ledger, keys': seq<string>)
    requires KeyOrder(b, keys)
    ensures balances == SplitEqually(b, people, sharePerPerson)
    ensures keys' == UniqueFrom(keys, people)
    ensures KeyOrder(balances, keys')
  {
    balances, keys' := b, keys;
    var k := 0;
    while k < |people|
      invariant 0 <= k <= |people|
      invariant SplitEqually(balances, people[k..], sharePerPerson) == SplitEqually(b, people, sharePerPerson)
      invariant UniqueFrom(keys', people[k..]) == UniqueFrom(keys, people)
      invariant KeyOrder(balances, keys')
    {
      assert people[k..][0] == people[k] && people[k..][1..] == people[k + 1..];
      UniqueFromFirst(keys', people[k..]);
      balances, keys' := DebitPerson(balances, keys', people[k], sharePerPerson);
      k := k + 1;
    }
  }

  /**
   * `calculateBalances`, with the expense list passed in instead of read from
   * the database. Besides the ledger it returns the order in which its keys
   * were created, which is the order a `for ... in` loop visits them.
   */
  method CalculateBalances(expenses: seq<Expense>) returns (balances: Ledger, keys: seq<string>)
    ensures balances == BalancesOf(expenses)
    ensures keys == KeysOf(expenses)
    ensures KeyOrder(balances, keys)
  {
    var allPeople := CollectPeople(expenses);
    balances, keys := map[], [];
    var i := 0;
    while i < |expenses|
      invariant 0 <= i <= |expenses|
      invariant ApplyAll(balances, expenses[i..], allPeople) == BalancesOf(expenses)
      invariant UniqueFrom(keys, TouchedAll(expenses[i..], allPeople)) == KeysOf(expenses)
      invariant KeyOrder(balances, keys)
    {
      var expense := expenses[i];
      assert expenses[i..][0] == expense && expenses[i..][1..] == expenses[i + 1..];
      var paidBy, amount := expense.paidBy, expense.amount;
      ghost var debited := if |expense.participants| > 0 then Names(expense.participants) else allPeople;
      ghost var rest := TouchedAll(expenses[i + 1..], allPeople);
      UniqueFromAppend(keys, Touched(expense, allPeople), rest);
      UniqueFromAppend(keys, [paidBy], debited);
      balances, keys := Post(balances, keys, paidBy, amount);
      if |expense.participants| > 0 {
        balances, keys := DebitEach(balances, keys, amount, expense.participants);
      } else {
        MentionsCover(expenses, i);
        assert paidBy in allPeople;
        var sharePerPerson := amount / |allPeople| as real;
        balances, keys := DebitAll(balances, keys, allPeople, sharePerPerson);
      }
      i := i + 1;
    }
  }
}
