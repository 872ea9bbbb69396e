/** The prepaid balance: recharging and consuming, each in a transaction with its ledger entry. */
module Billing {
  import opened Common

  datatype Account = Account(balance: int, recharged: int, consumed: int)

  datatype Kind = Credit | Debit

  datatype Txn = Txn(tenant: int, kind: Kind, amount: int, balanceAfter: int, biz: string)

  datatype Ledger = Ledger(accounts: map<int, Account>, txns: seq<Txn>)

  const NEW_ACCOUNT := Account(0, 0, 0)

  function AccountOf(l: Ledger, tenant: int): Account {
    if tenant in l.accounts then l.accounts[tenant] else NEW_ACCOUNT
  }

  function Ensured(l: Ledger, tenant: int): Ledger {
    if tenant in l.accounts then l else l.(accounts := l.accounts[tenant := NEW_ACCOUNT])
  }

  function Recharged(l: Ledger, tenant: int, amount: int): Ledger {
    var a := AccountOf(l, tenant);
    Ledger(l.accounts[tenant := Account(a.balance + amount, a.recharged + amount, a.consumed)],
           l.txns + [Txn(tenant, Credit, amount, a.balance + amount, "")])
  }

  function Consumed(l: Ledger, tenant: int, biz: string, cents: int): Ledger {
    var a := AccountOf(l, tenant);
    Ledger(l.accounts[tenant := Account(a.balance - cents, a.recharged, a.consumed + cents)],
           l.txns + [Txn(tenant, Debit, -cents, a.balance - cents, biz)])
  }

  /** A tenant's figures have changed by these amounts, no other tenant's have, and one entry of the
      kind was added, for `amount`, with the new balance. */
  ghost predicate Entered(l: Ledger, m: Ledger, tenant: int, amount: int, recharged: int, consumed: int, kind: Kind, biz: string) {
    && tenant in m.accounts
    && m.accounts[tenant].balance == (if tenant in l.accounts then l.accounts[tenant].balance else 0) + amount
    && m.accounts[tenant].recharged == (if tenant in l.accounts then l.accounts[tenant].recharged else 0) + recharged
    && m.accounts[tenant].consumed == (if tenant in l.accounts then l.accounts[tenant].consumed else 0) + consumed
    && (forall t | t != tenant :: t in m.accounts <==> t in l.accounts)
    && (forall t | t != tenant && t in l.accounts :: m.accounts[t] == l.accounts[t])
    && |m.txns| == |l.txns| + 1 && m.txns[..|l.txns|] == l.txns
    && m.txns[|l.txns|] == Txn(tenant, kind, amount, m.accounts[tenant].balance, biz)
  }

  /** Recharging raises balance and total by the amount; consuming lowers the balance and raises its total
      by the cost. */
  lemma EntriesAreBooked(l: Ledger, tenant: int, amount: int, biz: string)
    ensures Entered(l, Recharged(l, tenant, amount), tenant, amount, amount, 0, Credit, "")
    ensures Entered(l, Consumed(l, tenant, biz, amount), tenant, -amount, 0, amount, Debit, biz)
  {
  }

  /** An account made for a tenant is empty, and one that is there stays as it is. */
  lemma EnsuredIsEmpty(l: Ledger, tenant: int)
    ensures var m := Ensured(l, tenant);
            && m.txns == l.txns && tenant in m.accounts
            && (tenant !in l.accounts ==> m.accounts[tenant] == Account(0, 0, 0))
            && (forall t | t in l.accounts :: t in m.accounts && m.accounts[t] == l.accounts[t])
            && (forall t | t in m.accounts && t != tenant :: t in l.accounts)
  {
  }

  // ---- The service ----

  /** The statements of a transaction, any of which may fail; Insert and Again only without an account. */
  datatype Statement = Update | Insert | Again | ReadBack | Append | Commit

  predicate Hit(fault: Option<Statement>, hadAccount: bool) {
    fault.Some? && (fault.value.Insert? || fault.value.Again? ==> !hadAccount)
  }

  datatype Reply = Refused | Failed | Balance(account: Account)

  class Service {
    var accounts: map<int, Account>
    var txns: seq<Txn>

    constructor (opening: map<int, int>)
      ensures Value() == Opened(opening)
    {
      accounts := map t | t in opening :: Account(opening[t], 0, 0);
      txns := [];
    }

    function Value(): Ledger
      reads this
    {
      Ledger(accounts, txns)
    }

    function Spent(tenant: int): int
      reads this
    {
      AccountOf(Value(), tenant).consumed
    }

    /** INSERT IGNORE: an account that is there stays as it is. */
    method EnsureAccount(tenant: int, ok: bool)
      modifies this
      ensures Value() == if ok then Ensured(old(Value()), tenant) else old(Value())
    {
      if ok && tenant !in accounts {
        accounts := accounts[tenant := NEW_ACCOUNT];
      }
    }

    /** UPDATE ... WHERE tenantId: no row, no effect. */
    method AddTo(tenant: int, balance: int, recharged: int, consumed: int) returns (affected: bool)
      modifies this`accounts
      ensures affected == (tenant in old(accounts))
      ensures !affected ==> accounts == old(accounts)
      ensures affected ==> accounts == old(accounts)[tenant :=
                Account(old(accounts)[tenant].balance + balance, old(accounts)[tenant].recharged + recharged,
                        old(accounts)[tenant].consumed + consumed)]
    {
      affected := tenant in accounts;
      if affected {
        var a := accounts[tenant];
        accounts := accounts[tenant := Account(a.balance + balance, a.recharged + recharged, a.consumed + consumed)];
      }
    }

    method Recharge(tenant: int, amount: int, ensured: bool, fault: Option<Statement>, reported: bool)
      returns (reply: Reply)
      modifies this
      ensures var done := amount > 0 && ensured && !Hit(fault, true);
              Value() == if done then Recharged(old(Value()), tenant, amount)
                         else if amount > 0 && ensured then Ensured(old(Value()), tenant)
                         else old(Value())
      ensures amount > 0 && ensured && (fault == None || fault == Some(Insert) || fault == Some(Again)) ==>
                Entered(old(Value()), Value(), tenant, amount, amount, 0, Credit, "")
      ensures reply == if amount <= 0 then Refused
                       else if !ensured || !reported || (fault.Some? && fault.value != Insert && fault.value != Again) then Failed
                       else Balance(AccountOf(Value(), tenant))
    {
      if amount <= 0 {
        return Refused;
      }
      EnsureAccount(tenant, ensured);
      if !ensured {
        return Failed;
      }
      var savedAccounts, savedTxns := accounts, txns;
      var affected := AddTo(tenant, amount, amount, 0);
      var after := accounts[tenant].balance;
      txns := txns + [Txn(tenant, Credit, amount, after, "")];
      if Hit(fault, true) {
        accounts, txns := savedAccounts, savedTxns;
        return Failed;
      }
      if !reported {
        return Failed;
      }
      return Balance(accounts[tenant]);
    }

    method Consume(tenant: int, biz: string, cents: int, fault: Option<Statement>)
      modifies this
      ensures var skipped := tenant in old(accounts) && (fault == Some(Insert) || fault == Some(Again));
              var done := cents != 0 && (fault == None || skipped);
              && Value() == (if done then Consumed(old(Value()), tenant, biz, cents) else old(Value()))
              && (done ==> Entered(old(Value()), Value(), tenant, -cents, 0, cents, Debit, biz))
    {
      if cents == 0 {
        return;
      }
      var savedAccounts, savedTxns := accounts, txns;
      var affected := AddTo(tenant, -cents, 0, cents);
      if !affected {
        accounts := accounts[tenant := NEW_ACCOUNT];
        var again := AddTo(tenant, -cents, 0, cents);
      }
      var after := accounts[tenant].balance;
      txns := txns + [Txn(tenant, Debit, -cents, after, biz)];
      if Hit(fault, tenant in savedAccounts) {
        accounts, txns := savedAccounts, savedTxns;
        return;
      }
      assert accounts == Consumed(old(Value()), tenant, biz, cents).accounts;
    }
  }

  // ---- Runs ----

  datatype Op =
    | EnsureOp(tenant: int, ok: bool)
    | RechargeOp(tenant: int, amount: int, ensured: bool, committed: bool)
    | ConsumeOp(tenant: int, biz: string, cents: int, committed: bool)

  function Apply(l: Ledger, op: Op): Ledger {
    match op
    case EnsureOp(t, ok) => if ok then Ensured(l, t) else l
    case RechargeOp(t, amount, ensured, committed) =>
      if amount <= 0 || !ensured then l
      else if committed then Recharged(l, t, amount) else Ensured(l, t)
    case ConsumeOp(t, biz, cents, committed) =>
      if cents == 0 || !committed then l else Consumed(l, t, biz, cents)
  }

  /** Accounts with their opening balances; the seed data has one that is not zero. */
  function Opened(opening: map<int, int>): Ledger {
    Ledger(map t | t in opening :: Account(opening[t], 0, 0), [])
  }

  function After(opening: map<int, int>, ops: seq<Op>): Ledger {
    if ops == [] then Opened(opening) else Apply(After(opening, ops[..|ops| - 1]), ops[|ops| - 1])
  }

  function OpeningOf(opening: map<int, int>, tenant: int): int {
    if tenant in opening then opening[tenant] else 0
  }

  /** The tenant's entries of a kind, summed. */
  function Sum(txns: seq<Txn>, tenant: int, kind: Kind): int {
    if txns == [] then 0
    else
      var last := txns[|txns| - 1];
      Sum(txns[..|txns| - 1], tenant, kind)
      + (if last.tenant == tenant && last.kind == kind then last.amount else 0)
  }

  function Moved(txns: seq<Txn>, tenant: int): int {
    Sum(txns, tenant, Credit) + Sum(txns, tenant, Debit)
  }

  ghost predicate AccountSettled(l: Ledger, opening: map<int, int>, t: int) {
    var a := AccountOf(l, t);
    && a.recharged == Sum(l.txns, t, Credit)
    && a.consumed == -Sum(l.txns, t, Debit)
    && a.balance == OpeningOf(opening, t) + a.recharged - a.consumed
  }

  ghost predicate EntrySettled(txns: seq<Txn>, opening: map<int, int>, i: nat)
    requires i < |txns|
  {
    var t := txns[i].tenant;
    txns[i].balanceAfter == OpeningOf(opening, t) + Moved(txns[..i + 1], t)
  }

  ghost predicate Settled(l: Ledger, opening: map<int, int>) {
    && (forall t :: AccountSettled(l, opening, t))
    && (forall i | 0 <= i < |l.txns| :: EntrySettled(l.txns, opening, i))
  }

  lemma EntryKeepsSettled(l: Ledger, m: Ledger, opening: map<int, int>, e: Txn)
    requires Settled(l, opening) && m.txns == l.txns + [e]
    requires e.balanceAfter == AccountOf(l, e.tenant).balance + e.amount
    requires forall t | t != e.tenant :: AccountOf(m, t) == AccountOf(l, t)
    requires AccountOf(m, e.tenant).balance == e.balanceAfter
    requires var a, b := AccountOf(l, e.tenant), AccountOf(m, e.tenant);
             && b.recharged == a.recharged + (if e.kind == Credit then e.amount else 0)
             && b.consumed == a.consumed - (if e.kind == Debit then e.amount else 0)
    ensures Settled(m, opening)
  {
    var n := |l.txns|;
    assert m.txns[..n] == l.txns;
    forall t
      ensures AccountSettled(m, opening, t)
    {
      assert AccountSettled(l, opening, t);
    }
    forall i | 0 <= i < |m.txns|
      ensures EntrySettled(m.txns, opening, i)
    {
      if i < n {
        assert EntrySettled(l.txns, opening, i);
        assert m.txns[..i + 1] == l.txns[..i + 1];
      } else {
        assert m.txns[..i + 1] == m.txns;
        assert AccountSettled(m, opening, e.tenant);
      }
    }
  }

  lemma StepKeepsSettled(l: Ledger, opening: map<int, int>, op: Op)
    requires Settled(l, opening)
    ensures Settled(Apply(l, op), opening) && l.txns <= Apply(l, op).txns
  {
    var m := Apply(l, op);
    if m.txns == l.txns {
      forall t
        ensures AccountSettled(m, opening, t)
      {
        assert AccountSettled(l, opening, t);
      }
    } else {
      EntryKeepsSettled(l, m, opening, m.txns[|l.txns|]);
    }
  }

  /** In every run, each account is its opening balance plus its entries, each entry carries the
      balance at its position, and entries are only appended. */
  lemma {:induction false} RunsSettle(opening: map<int, int>, ops: seq<Op>)
    ensures Settled(After(opening, ops), opening)
    ensures ops != [] ==> After(opening, ops[..|ops| - 1]).txns <= After(opening, ops).txns
  {
    if ops == [] {
      forall t
        ensures AccountSettled(Opened(opening), opening, t)
      {
        assert AccountOf(Opened(opening), t).balance == OpeningOf(opening, t);
      }
    } else {
      RunsSettle(opening, ops[..|ops| - 1]);
      StepKeepsSettled(After(opening, ops[..|ops| - 1]), opening, ops[|ops| - 1]);
    }
  }
}
