// The accounts of the chain as a value, and the lamports they hold together.
module Ledger {
  import opened Bytes
  import opened AccountData

  datatype AccountState = AccountState(owner: Address, lamports: nat, data: seq<byte>)

  /** What an address nobody has funded looks like, and what closing an account leaves. */
  const BLANK := AccountState(SYSTEM_PROGRAM_ID, 0, [])

  type Accounts = map<Address, AccountState>

  function Get(l: Accounts, a: Address): AccountState {
    if a in l then l[a] else BLANK
  }

  function WithLamports(l: Accounts, a: Address, lamports: nat): Accounts {
    l[a := Get(l, a).(lamports := lamports)]
  }

  function WithData(l: Accounts, a: Address, data: seq<byte>): Accounts {
    l[a := Get(l, a).(data := data)]
  }

  function WithOwner(l: Accounts, a: Address, owner: Address): Accounts {
    l[a := Get(l, a).(owner := owner)]
  }

  /** The end of a transaction: accounts without lamports cease to exist. */
  function Purge(l: Accounts): Accounts {
    map a | a in l && l[a].lamports > 0 :: l[a]
  }

  // --- Totals ---

  ghost function Sum(l: Accounts, keys: set<Address>): nat
    decreases |keys|
  {
    if keys == {} then 0
    else
      var a :| a in keys;
      Get(l, a).lamports + Sum(l, keys - {a})
  }

  ghost function Total(l: Accounts): nat {
    Sum(l, l.Keys)
  }

  lemma {:induction false} SumWithout(l: Accounts, keys: set<Address>, a: Address)
    requires a in keys
    ensures Sum(l, keys) == Get(l, a).lamports + Sum(l, keys - {a})
    decreases |keys|
  {
    var b :| b in keys && Sum(l, keys) == Get(l, b).lamports + Sum(l, keys - {b});
    if a != b {
      SumWithout(l, keys - {b}, a);
      SumWithout(l, keys - {a}, b);
      assert keys - {a} - {b} == keys - {b} - {a};
    }
  }

  lemma {:induction false} SumFrame(l: Accounts, m: Accounts, keys: set<Address>)
    requires forall a :: a in keys ==> Get(l, a).lamports == Get(m, a).lamports
    ensures Sum(l, keys) == Sum(m, keys)
    decreases |keys|
  {
    if keys != {} {
      var a :| a in keys;
      SumWithout(l, keys, a);
      SumWithout(m, keys, a);
      SumFrame(l, m, keys - {a});
    }
  }

  lemma TotalWithout(l: Accounts, a: Address)
    ensures Total(l) == Get(l, a).lamports + Sum(l, l.Keys - {a})
  {
    if a in l {
      SumWithout(l, l.Keys, a);
    } else {
      assert l.Keys - {a} == l.Keys;
    }
  }

  /** Replacing one account moves the total by the difference of the two balances. */
  lemma TotalUpdate(l: Accounts, a: Address, s: AccountState)
    ensures Total(l[a := s]) + Get(l, a).lamports == Total(l) + s.lamports
  {
    var m := l[a := s];
    TotalWithout(l, a);
    TotalWithout(m, a);
    assert m.Keys - {a} == l.Keys - {a};
    SumFrame(l, m, l.Keys - {a});
  }

  /** Two accounts together never hold more than there is. */
  lemma PairWithinTotal(l: Accounts, a: Address, b: Address)
    requires a != b
    ensures Get(l, a).lamports + Get(l, b).lamports <= Total(l)
  {
    TotalWithout(l, a);
    if b in l {
      SumWithout(l, l.Keys - {a}, b);
    }
  }

  lemma OneWithinTotal(l: Accounts, a: Address)
    ensures Get(l, a).lamports <= Total(l)
  {
    TotalWithout(l, a);
  }

  lemma {:induction false} SumOfEmpties(l: Accounts, keys: set<Address>)
    requires forall a :: a in keys ==> Get(l, a).lamports == 0
    ensures Sum(l, keys) == 0
    decreases |keys|
  {
    if keys != {} {
      var a :| a in keys;
      SumWithout(l, keys, a);
      SumOfEmpties(l, keys - {a});
    }
  }

  lemma {:induction false} SumSplit(l: Accounts, keys: set<Address>, part: set<Address>)
    requires part <= keys
    ensures Sum(l, keys) == Sum(l, part) + Sum(l, keys - part)
    decreases |part|
  {
    if part == {} {
      assert keys - part == keys;
    } else {
      var a :| a in part;
      SumWithout(l, keys, a);
      SumWithout(l, part, a);
      SumSplit(l, keys - {a}, part - {a});
      assert keys - {a} - (part - {a}) == keys - part;
    }
  }

  lemma PurgeKeepsTotal(l: Accounts)
    ensures Total(Purge(l)) == Total(l)
  {
    var m := Purge(l);
    assert m.Keys <= l.Keys;
    SumSplit(l, l.Keys, m.Keys);
    SumOfEmpties(l, l.Keys - m.Keys);
    SumFrame(l, m, m.Keys);
  }

  lemma PurgeGet(l: Accounts, a: Address)
    ensures Get(Purge(l), a) == if Get(l, a).lamports > 0 then Get(l, a) else BLANK
  {
  }
}
