// Accounts as the program holds them: objects whose owner, balance and bytes change in place, found
// by address, so that an address passed in two roles is one object.
module Bank {
  import opened Wrappers
  import opened Bytes
  import opened Constants
  import opened Errors
  import opened AccountData
  import opened Ledger
  import opened Processor

  class Account {
    var owner: Address
    var lamports: nat
    var data: array<byte>

    ghost function State(): AccountState
      reads this, data
    {
      AccountState(owner, lamports, data[..])
    }

    constructor (owner: Address, lamports: nat, data: array<byte>)
      ensures this.owner == owner && this.lamports == lamports && this.data == data
    {
      this.owner, this.lamports, this.data := owner, lamports, data;
    }
  }

  /** The accounts loaded for one instruction. */
  class Loaded {
    const table: map<Address, Account>
    ghost var Repr: set<object>

    /** Different addresses are different objects with different buffers. */
    ghost predicate Valid()
      reads this, Repr
    {
      && this in Repr
      && (forall a :: a in table ==> table[a] in Repr && table[a].data in Repr)
      && (forall a, b :: a in table && b in table && a != b ==> table[a] != table[b] && table[a].data != table[b].data)
    }

    ghost function Contents(): Accounts
      requires Valid()
      reads this, Repr
    {
      map a | a in table :: table[a].State()
    }

    constructor (table: map<Address, Account>)
      requires forall a, b :: a in table && b in table && a != b ==> table[a] != table[b] && table[a].data != table[b].data
      ensures this.table == table && Valid() && fresh(Repr - table.Values - (set a | a in table :: table[a].data))
    {
      this.table := table;
      Repr := {this} + table.Values + (set a | a in table :: table[a].data);
    }

    /** What the contents say of one account. */
    lemma At(a: Address)
      requires Valid() && a in table
      ensures table[a] in Repr && table[a].data in Repr && Get(Contents(), a) == table[a].State()
    {
    }

    twostate lemma OneChanged(a: Address)
      requires old(Valid()) && Valid()
      requires a in table && forall b :: b in table && b != a ==> table[b].State() == old(table[b].State())
      ensures Contents() == old(Contents())[a := table[a].State()] && Get(old(Contents()), a) == old(table[a].State())
    {
    }

    // --- What an instruction may do to one account ---

    method SetLamports(a: Address, lamports: nat)
      requires Valid() && a in table
      modifies Repr
      ensures Valid() && fresh(Repr - old(Repr)) && Contents() == WithLamports(old(Contents()), a, lamports)
    {
      hide Contents;
      table[a].lamports := lamports;
      OneChanged(a);
    }

    method SetOwner(a: Address, owner: Address)
      requires Valid() && a in table
      modifies Repr
      ensures Valid() && fresh(Repr - old(Repr)) && Contents() == WithOwner(old(Contents()), a, owner)
    {
      hide Contents;
      table[a].owner := owner;
      OneChanged(a);
    }

    /** A new zeroed buffer. */
    method Resize(a: Address, space: nat)
      requires Valid() && a in table
      modifies Repr
      ensures Valid() && fresh(Repr - old(Repr)) && Contents() == WithData(old(Contents()), a, Zeros(space))
    {
      hide Contents;
      var buffer := new byte[space](_ => 0);
      assert buffer[..] == Zeros(space);
      hide AllZero;
      table[a].data := buffer;
      Repr := Repr + {buffer};
      OneChanged(a);
    }

    method PutBytes(a: Address, off: nat, piece: seq<byte>)
      requires Valid() && a in table && off + |piece| <= table[a].data.Length
      modifies Repr
      ensures Valid() && fresh(Repr - old(Repr)) && Contents() == WithData(old(Contents()), a, Splice(old(table[a].data[..]), off, piece))
    {
      hide Contents, Splice;
      CopyInto(table[a].data, off, piece);
      OneChanged(a);
    }

    method PutStagingHeader(a: Address, h: StagingHeader)
      requires Valid() && a in table && table[a].data.Length >= STAGING_HEADER_LEN
      modifies Repr
      ensures Valid() && fresh(Repr - old(Repr))
      ensures Contents() == WithData(old(Contents()), a, StagingHeaderBytes(h) + old(table[a].data[STAGING_HEADER_LEN..]))
    {
      hide Contents, StagingHeaderBytes;
      WriteStagingHeader(table[a].data, h);
      OneChanged(a);
    }

    method PutKeyHeader(a: Address, h: KeyHeader)
      requires Valid() && a in table && table[a].data.Length >= KEY_HEADER_LEN
      modifies Repr
      ensures Valid() && fresh(Repr - old(Repr))
      ensures Contents() == WithData(old(Contents()), a, KeyHeaderBytes(h) + old(table[a].data[KEY_HEADER_LEN..]))
    {
      hide Contents, KeyHeaderBytes;
      WriteKeyHeader(table[a].data, h);
      OneChanged(a);
    }
  }
}
