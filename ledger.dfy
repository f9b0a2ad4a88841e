/**
 * The bookkeeping rule behind the transaction service: what each stored
 * transaction contributes to an account's balance, how `updateBalance` moves
 * balances, and the ledger invariant that ties the two together.
 */
module Ledger {
  import opened Wrappers
  import opened Model
  import opened Seqs
  import opened Tables

  /** What `ref?.let { updateBalance(it, d) }` adds to account `a`. */
  function Gain(ref: Option<int>, a: int, d: real): real
  {
    if ref == Some(a) then d else 0.0
  }

  /**
   * The signed contribution of a stored transaction to account `a`, by its
   * stored type: income +amount to its to-account, expense -amount from its
   * from-account, transfer both; a null reference contributes nothing.
   */
  function Effect(t: Transaction, a: int): real
  {
    if t.kind == INCOME then Gain(t.toAccountId, a, t.amount)
    else if t.kind == EXPENSE then Gain(t.fromAccountId, a, -t.amount)
    else if t.kind == TRANSFER then Gain(t.fromAccountId, a, -t.amount) + Gain(t.toAccountId, a, t.amount)
    else 0.0
  }

  function EffectOn(a: int): Transaction -> real
  {
    t => Effect(t, a)
  }

  /** The sum of the contributions of `txs` to account `a`. */
  function Contribution(txs: seq<Transaction>, a: int): real
  {
    SumOf(txs, EffectOn(a))
  }

  /** `UPDATE accounts SET balance = balance + delta WHERE id = id`. */
  function Credit(accounts: seq<Account>, id: int, delta: real): seq<Account>
  {
    seq(|accounts|, k requires 0 <= k < |accounts| =>
      if accounts[k].id == id then accounts[k].(balance := accounts[k].balance + delta) else accounts[k])
  }

  /** `Credit` through a nullable reference: nothing happens for `null`. */
  function CreditRef(accounts: seq<Account>, ref: Option<int>, delta: real): seq<Account>
  {
    if ref.Some? then Credit(accounts, ref.value, delta) else accounts
  }

  /** Every account gains the contribution of `t`. */
  function Apply(accounts: seq<Account>, t: Transaction): seq<Account>
  {
    seq(|accounts|, k requires 0 <= k < |accounts| =>
      accounts[k].(balance := accounts[k].balance + Effect(t, accounts[k].id)))
  }

  /** Every account loses the contribution of `t`. */
  function Revert(accounts: seq<Account>, t: Transaction): seq<Account>
  {
    seq(|accounts|, k requires 0 <= k < |accounts| =>
      accounts[k].(balance := accounts[k].balance - Effect(t, accounts[k].id)))
  }

  /** Every account trades the contribution of `t` for that of `t'`. */
  function Revise(accounts: seq<Account>, t: Transaction, t': Transaction): seq<Account>
  {
    seq(|accounts|, k requires 0 <= k < |accounts| =>
      accounts[k].(balance := accounts[k].balance + (Effect(t', accounts[k].id) - Effect(t, accounts[k].id))))
  }

  /**
   * The ledger invariant: every existing account's balance is its opening
   * balance plus the contributions of the stored transactions that reference it.
   */
  ghost predicate Consistent(accounts: seq<Account>, txs: seq<Transaction>, opening: map<int, real>)
  {
    forall k :: 0 <= k < |accounts| ==>
      accounts[k].id in opening && accounts[k].balance == opening[accounts[k].id] + Contribution(txs, accounts[k].id)
  }

  lemma ContributionAppend(txs: seq<Transaction>, t: Transaction, a: int)
    ensures Contribution(txs + [t], a) == Contribution(txs, a) + Effect(t, a)
  {
    assert (txs + [t])[..|txs|] == txs;
  }

  lemma ContributionRemove(txs: seq<Transaction>, k: nat, a: int)
    requires k < |txs|
    ensures Contribution(RemoveAt(txs, k), a) == Contribution(txs, a) - Effect(txs[k], a)
  {
    SumRemove(txs, k, EffectOn(a));
  }

  lemma ContributionReplace(txs: seq<Transaction>, k: nat, t: Transaction, a: int)
    requires k < |txs|
    ensures Contribution(txs[k := t], a) == Contribution(txs, a) - Effect(txs[k], a) + Effect(t, a)
  {
    SumReplace(txs, k, t, EffectOn(a));
  }

  /** Recording a transaction and applying its contribution keeps the ledger consistent. */
  lemma ApplyConsistent(accounts: seq<Account>, txs: seq<Transaction>, opening: map<int, real>, t: Transaction)
    requires Consistent(accounts, txs, opening)
    ensures Consistent(Apply(accounts, t), txs + [t], opening)
  {
    forall k | 0 <= k < |accounts| {
      ContributionAppend(txs, t, accounts[k].id);
    }
  }

  /** Deleting a row and reverting its contribution keeps the ledger consistent. */
  lemma RevertConsistent(accounts: seq<Account>, txs: seq<Transaction>, opening: map<int, real>, i: nat)
    requires i < |txs| && Consistent(accounts, txs, opening)
    ensures Consistent(Revert(accounts, txs[i]), RemoveAt(txs, i), opening)
  {
    forall k | 0 <= k < |accounts| {
      ContributionRemove(txs, i, accounts[k].id);
    }
  }

  /** Rewriting a row and revising the balances by the difference keeps the ledger consistent. */
  lemma ReviseConsistent(accounts: seq<Account>, txs: seq<Transaction>, opening: map<int, real>, i: nat, t': Transaction)
    requires i < |txs| && Consistent(accounts, txs, opening)
    ensures Consistent(Revise(accounts, txs[i], t'), txs[i := t'], opening)
  {
    forall k | 0 <= k < |accounts| {
      ContributionReplace(txs, i, t', accounts[k].id);
    }
  }

  /** A new account that no stored row references joins a consistent ledger consistently. */
  lemma OpenConsistent(accounts: seq<Account>, txs: seq<Transaction>, opening: map<int, real>, a: Account)
    requires Consistent(accounts, txs, opening)
    requires forall k :: 0 <= k < |accounts| ==> accounts[k].id != a.id
    requires forall i :: 0 <= i < |txs| ==> Effect(txs[i], a.id) == 0.0
    ensures Consistent(accounts + [a], txs, opening[a.id := a.balance])
  {
    ZeroContribution(txs, a.id);
  }

  lemma {:induction false} ZeroContribution(txs: seq<Transaction>, a: int)
    requires forall i :: 0 <= i < |txs| ==> Effect(txs[i], a) == 0.0
    ensures Contribution(txs, a) == 0.0
  {
    if txs != [] {
      ZeroContribution(txs[..|txs| - 1], a);
    }
  }

  /** Removing an account row keeps the invariant for the accounts that remain. */
  lemma CloseConsistent(accounts: seq<Account>, txs: seq<Transaction>, opening: map<int, real>, k: nat)
    requires k < |accounts| && Consistent(accounts, txs, opening)
    ensures Consistent(RemoveAt(accounts, k), txs, opening)
  {
    var r := RemoveAt(accounts, k);
    assert forall i :: 0 <= i < |r| ==> r[i] == (if i < k then accounts[i] else accounts[i + 1]);
  }

  /** What `addIncome` does to balances is the income row's contribution. */
  lemma IncomeIsApply(accounts: seq<Account>, t: Transaction)
    requires t.kind == INCOME && t.toAccountId.Some?
    ensures Credit(accounts, t.toAccountId.value, t.amount) == Apply(accounts, t)
  {
  }

  /** What `addExpense` does to balances is the expense row's contribution. */
  lemma ExpenseIsApply(accounts: seq<Account>, t: Transaction)
    requires t.kind == EXPENSE && t.fromAccountId.Some?
    ensures Credit(accounts, t.fromAccountId.value, -t.amount) == Apply(accounts, t)
  {
  }

  /** What `addTransfer` does to balances is the transfer row's contribution. */
  lemma TransferIsApply(accounts: seq<Account>, t: Transaction)
    requires t.kind == TRANSFER && t.fromAccountId.Some? && t.toAccountId.Some?
    ensures Credit(Credit(accounts, t.fromAccountId.value, -t.amount), t.toAccountId.value, t.amount) == Apply(accounts, t)
  {
  }

  /** A transfer from an account to itself leaves every balance as it was. */
  lemma SelfTransferNoNet(accounts: seq<Account>, a: int, amount: real)
    ensures Credit(Credit(accounts, a, -amount), a, amount) == accounts
  {
    var r := Credit(Credit(accounts, a, -amount), a, amount);
    forall k | 0 <= k < |accounts| ensures r[k] == accounts[k] {
      if accounts[k].id == a {
        assert r[k].balance == accounts[k].balance - amount + amount;
      }
    }
  }

  /** `updateBalance(id, d)` then `updateBalance(id, -d)` restores the table. */
  lemma CreditInverse(accounts: seq<Account>, id: int, d: real)
    ensures Credit(Credit(accounts, id, d), id, -d) == accounts
  {
    var r := Credit(Credit(accounts, id, d), id, -d);
    forall k | 0 <= k < |accounts| ensures r[k] == accounts[k] {
      if accounts[k].id == id {
        assert r[k].balance == accounts[k].balance + d - d;
      }
    }
  }

  /** Recording a transaction and then deleting it restores every balance. */
  lemma ApplyThenRevert(accounts: seq<Account>, t: Transaction)
    ensures Revert(Apply(accounts, t), t) == accounts
  {
    var r := Revert(Apply(accounts, t), t);
    forall k | 0 <= k < |accounts| ensures r[k] == accounts[k] {
      assert r[k].balance == accounts[k].balance + Effect(t, accounts[k].id) - Effect(t, accounts[k].id);
    }
  }

  /** An update that keeps the amount moves no balance. */
  lemma ReviseSameAmount(accounts: seq<Account>, t: Transaction, t': Transaction)
    requires t'.kind == t.kind && t'.amount == t.amount
    requires t'.fromAccountId == t.fromAccountId && t'.toAccountId == t.toAccountId
    ensures Revise(accounts, t, t') == accounts
  {
    var r := Revise(accounts, t, t');
    forall k | 0 <= k < |accounts| ensures r[k] == accounts[k] {
      assert Effect(t', accounts[k].id) == Effect(t, accounts[k].id);
    }
  }

  /** Revising leaves the balances as if the old row had been deleted and the revised one recorded. */
  lemma ReviseIsRerecord(accounts: seq<Account>, t: Transaction, t': Transaction)
    ensures Revise(accounts, t, t') == Apply(Revert(accounts, t), t')
  {
    var r, q := Revise(accounts, t, t'), Apply(Revert(accounts, t), t');
    forall k | 0 <= k < |accounts| ensures r[k] == q[k] {
      assert q[k].balance == accounts[k].balance - Effect(t, accounts[k].id) + Effect(t', accounts[k].id);
    }
  }

  /** An update that changes the amount moves each referenced balance by the signed difference. */
  lemma ReviseIsDifference(accounts: seq<Account>, t: Transaction, t': Transaction)
    requires t'.kind == t.kind && t'.fromAccountId == t.fromAccountId && t'.toAccountId == t.toAccountId
    ensures var diff := t'.amount - t.amount;
      Revise(accounts, t, t') ==
        if t.kind == INCOME then CreditRef(accounts, t.toAccountId, diff)
        else if t.kind == EXPENSE then CreditRef(accounts, t.fromAccountId, -diff)
        else if t.kind == TRANSFER then CreditRef(CreditRef(accounts, t.fromAccountId, -diff), t.toAccountId, diff)
        else accounts
  {
  }

  /** Deleting reverses, per stored type, exactly the references that are not null. */
  lemma RevertIsCredits(accounts: seq<Account>, t: Transaction)
    ensures Revert(accounts, t) ==
      if t.kind == INCOME then CreditRef(accounts, t.toAccountId, -t.amount)
      else if t.kind == EXPENSE then CreditRef(accounts, t.fromAccountId, t.amount)
      else if t.kind == TRANSFER then CreditRef(CreditRef(accounts, t.fromAccountId, t.amount), t.toAccountId, -t.amount)
      else accounts
  {
  }
}
