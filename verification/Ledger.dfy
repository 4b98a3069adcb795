/** The token contract smartPy-contracts/flexibleToken.py. A failing call leaves no trace. */
module Ledger {
  import opened Wrappers

  type Address = string
  type Balances = map<Address, nat>

  datatype Data = Data(
    balances: Balances, allowed: map<Address, Balances>, symbol: string, name: string, totalSupply: nat,
    locked: bool, owner: Address, newOwner: Option<Address>)

  function Initial(symbol: string, name: string, supply: nat, owner: Address): Data {
    Data(map[owner := supply], map[], symbol, name, supply, false, owner, Some(owner))
  }

  datatype EntryPoint =
    | TransferOwnerShip(addressNewOwner: Address)
    | AcceptOwnership
    | SetSymbol(symbol: string)
    | SetName(name: string)
    | Approve(spender: Address, tokens: nat)
    | TransferFrom(from_: Address, to: Address, tokens: nat)
    | Transfer(destination: Address, tokens: nat)
    | Lock
    | Unlock

  datatype Call = Call(sender: Address, entry: EntryPoint)

  // ----- what a call does -----------------------------------------------------------------------------------

  function Allowance(d: Data, owner: Address, spender: Address): Option<nat> {
    if owner in d.allowed && spender in d.allowed[owner] then Some(d.allowed[owner][spender]) else None
  }

  /** The entry point goes through. Even the owner of the contract, and an account moving its own
      tokens, need an allowance, because it is always read and reduced. */
  predicate Succeeds(d: Data, c: Call) {
    match c.entry
    case AcceptOwnership => c.sender == d.owner && d.newOwner.Some? && d.newOwner.value != d.owner
    case SetSymbol(_) => c.sender == d.owner && !d.locked
    case SetName(_) => c.sender == d.owner && !d.locked
    case Approve(_, _) => c.sender in d.allowed
    case TransferFrom(from_, to, tokens) =>
      && from_ in d.balances && d.balances[from_] >= tokens && to in d.balances
      && Allowance(d, from_, c.sender).Some? && Allowance(d, from_, c.sender).value >= tokens
      && (c.sender == d.owner || !d.locked)
    case _ => true
  }

  function SetAllowance(d: Data, owner: Address, spender: Address, tokens: nat): map<Address, Balances>
    requires owner in d.allowed
  {
    var granted: Balances := d.allowed[owner][spender := tokens];
    d.allowed[owner := granted]
  }

  /** Tokens taken from one balance and put on another, which may be the same. */
  function Moved(b: Balances, from_: Address, to: Address, tokens: nat): Balances
    requires from_ in b && to in b && b[from_] >= tokens
  {
    map a | a in b ::
      if from_ == to then b[a] else if a == from_ then b[a] - tokens else if a == to then b[a] + tokens else b[a]
  }

  /** Between the two states exactly `tokens` have left `from_` and reached `to`, out of the sender's
      allowance; nobody else's balance and no other allowance is touched, and nothing else at all. */
  ghost predicate Transferred(d: Data, d': Data, sender: Address, from_: Address, to: Address, tokens: nat) {
    && {from_, to} <= d.balances.Keys && d'.balances.Keys == d.balances.Keys
    && (from_ == to ==> d'.balances == d.balances)
    && (from_ != to ==>
          d'.balances[from_] == d.balances[from_] - tokens && d'.balances[to] == d.balances[to] + tokens)
    && (forall a :: a in d.balances && a != from_ && a != to ==> d'.balances[a] == d.balances[a])
    && Allowance(d, from_, sender).Some?
    && Allowance(d', from_, sender) == Some(Allowance(d, from_, sender).value - tokens)
    && (forall a, b :: (a, b) != (from_, sender) ==> Allowance(d', a, b) == Allowance(d, a, b))
    && d'.(balances := d.balances, allowed := d.allowed) == d
  }

  function Apply(d: Data, c: Call): Data {
    if !Succeeds(d, c) then d
    else
      match c.entry
      case TransferOwnerShip(a) => d.(newOwner := Some(a))
      case AcceptOwnership => d.(owner := d.newOwner.value, newOwner := None)
      case SetSymbol(symbol) => d.(symbol := symbol)
      case SetName(name) => d.(name := name)
      case Approve(spender, tokens) => d.(allowed := SetAllowance(d, c.sender, spender, tokens))
      case TransferFrom(from_, to, tokens) =>
        d.(balances := Moved(d.balances, from_, to, tokens),
           allowed := SetAllowance(d, from_, c.sender, Allowance(d, from_, c.sender).value - tokens))
      case _ => d
  }

  lemma TransferMoves(d: Data, c: Call)
    requires c.entry.TransferFrom? && Succeeds(d, c)
    ensures Transferred(d, Apply(d, c), c.sender, c.entry.from_, c.entry.to, c.entry.tokens)
  {
  }

  // ----- the entry points as they run -------------------------------------------------------------------------

  class FlexibleToken {
    var data: Data

    constructor (symbol: string, name: string, supply: nat, owner: Address)
      ensures data == Initial(symbol, name, supply, owner)
      ensures data.balances == map[owner := supply] && data.allowed == map[] && data.totalSupply == supply
      ensures data.symbol == symbol && data.name == name
      ensures !data.locked && data.owner == owner && data.newOwner == Some(owner)
    {
      data := Data(map[owner := supply], map[], symbol, name, supply, false, owner, Some(owner));
    }

    method TransferOwnerShipTo(sender: Address, addressNewOwner: Address)
      modifies this
      ensures data == Apply(old(data), Call(sender, TransferOwnerShip(addressNewOwner)))
      ensures data == old(data).(newOwner := Some(addressNewOwner))
    {
      data := data.(newOwner := Some(addressNewOwner));
    }

    method AcceptTheOwnership(sender: Address) returns (ok: bool)
      modifies this
      ensures ok == Succeeds(old(data), Call(sender, AcceptOwnership))
      ensures data == Apply(old(data), Call(sender, AcceptOwnership))
      ensures ok <==> sender == old(data).owner && old(data).newOwner.Some? && old(data).newOwner != Some(sender)
      ensures data == if ok then old(data).(owner := old(data).newOwner.value, newOwner := None) else old(data)
    {
      if data.owner != sender { return false; }
      if data.newOwner.None? { return false; }
      var newOwnerAddress := data.newOwner.value;
      if newOwnerAddress == data.owner { return false; }
      data := data.(owner := newOwnerAddress);
      data := data.(newOwner := None);
      return true;
    }

    method SetTheSymbol(sender: Address, symbol: string) returns (ok: bool)
      modifies this
      ensures ok == Succeeds(old(data), Call(sender, SetSymbol(symbol)))
      ensures data == Apply(old(data), Call(sender, SetSymbol(symbol)))
      ensures ok <==> sender == old(data).owner && !old(data).locked
      ensures data == if ok then old(data).(symbol := symbol) else old(data)
    {
      if sender != data.owner || data.locked { return false; }
      data := data.(symbol := symbol);
      return true;
    }

    method SetTheName(sender: Address, name: string) returns (ok: bool)
      modifies this
      ensures ok == Succeeds(old(data), Call(sender, SetName(name)))
      ensures data == Apply(old(data), Call(sender, SetName(name)))
      ensures ok <==> sender == old(data).owner && !old(data).locked
      ensures data == if ok then old(data).(name := name) else old(data)
    {
      if sender != data.owner || data.locked { return false; }
      data := data.(name := name);
      return true;
    }

    method ApproveSpender(sender: Address, spender: Address, tokens: nat) returns (ok: bool)
      modifies this
      ensures ok == Succeeds(old(data), Call(sender, Approve(spender, tokens)))
      ensures data == Apply(old(data), Call(sender, Approve(spender, tokens)))
      ensures ok <==> sender in old(data).allowed
      ensures !ok ==> data == old(data)
      ensures ok ==> Allowance(data, sender, spender) == Some(tokens)
    {
      if sender !in data.allowed { return false; }
      var granted: Balances := data.allowed[sender][spender := tokens];
      data := data.(allowed := data.allowed[sender := granted]);
      return true;
    }

    /** Assignment by assignment on a copy, which is kept when none of them fails. */
    method TransferTokensFrom(sender: Address, from_: Address, to: Address, tokens: nat) returns (ok: bool)
      modifies this
      ensures ok == Succeeds(old(data), Call(sender, TransferFrom(from_, to, tokens)))
      ensures data == Apply(old(data), Call(sender, TransferFrom(from_, to, tokens)))
      ensures ok <==>
                && from_ in old(data).balances && old(data).balances[from_] >= tokens && to in old(data).balances
                && from_ in old(data).allowed && sender in old(data).allowed[from_]
                && old(data).allowed[from_][sender] >= tokens && (sender == old(data).owner || !old(data).locked)
      ensures !ok ==> data == old(data)
      ensures ok ==> Transferred(old(data), data, sender, from_, to, tokens)
    {
      hide Transferred;
      var d := data;
      if sender != d.owner {
        if d.locked { return false; }
        if from_ != sender {
          if from_ !in d.allowed || sender !in d.allowed[from_] || d.allowed[from_][sender] < tokens { return false; }
        }
      }
      if from_ !in d.balances || d.balances[from_] < tokens { return false; }
      d := d.(balances := d.balances[from_ := d.balances[from_] - tokens]);
      if from_ !in d.allowed || sender !in d.allowed[from_] || d.allowed[from_][sender] < tokens { return false; }
      var granted: Balances := d.allowed[from_][sender := d.allowed[from_][sender] - tokens];
      d := d.(allowed := d.allowed[from_ := granted]);
      if to !in d.balances { return false; }
      d := d.(balances := d.balances[to := d.balances[to] + tokens]);
      assert d.balances == Moved(data.balances, from_, to, tokens);
      TransferMoves(data, Call(sender, TransferFrom(from_, to, tokens)));
      data := d;
      return true;
    }
  }

  // ----- conservation -----------------------------------------------------------------------------------------

  ghost function Sum(b: Balances): nat {
    if b == map[] then 0
    else
      var a :| a in b;
      b[a] + Sum(b - {a})
  }

  lemma {:induction false} SumWithout(b: Balances, a: Address)
    requires a in b
    ensures Sum(b) == b[a] + Sum(b - {a})
    decreases |b|
  {
    var x :| x in b && Sum(b) == b[x] + Sum(b - {x});
    if x != a {
      SumWithout(b - {x}, a);
      SumWithout(b - {a}, x);
      assert b - {x} - {a} == b - {a} - {x};
    }
  }

  lemma SumMoved(b: Balances, from_: Address, to: Address, tokens: nat)
    requires from_ in b && to in b && b[from_] >= tokens
    ensures Sum(Moved(b, from_, to, tokens)) == Sum(b)
  {
    var m := Moved(b, from_, to, tokens);
    if from_ == to {
      assert m == b;
    } else {
      SumWithout(b, from_);
      SumWithout(b - {from_}, to);
      SumWithout(m, from_);
      SumWithout(m - {from_}, to);
      assert m - {from_} - {to} == b - {from_} - {to};
    }
  }

  function After(d: Data, calls: seq<Call>): Data {
    if calls == [] then d else Apply(After(d, calls[..|calls| - 1]), calls[|calls| - 1])
  }

  /** Whoever calls what, in any order: the balances keep adding up to the supply, no account appears or
      disappears, and the supply stays. */
  lemma {:induction false} SupplyIsConserved(d: Data, calls: seq<Call>)
    ensures var d' := After(d, calls);
            && Sum(d'.balances) == Sum(d.balances) && d'.totalSupply == d.totalSupply
            && d'.balances.Keys == d.balances.Keys
    decreases |calls|
  {
    if calls != [] {
      var before, c := After(d, calls[..|calls| - 1]), calls[|calls| - 1];
      SupplyIsConserved(d, calls[..|calls| - 1]);
      if c.entry.TransferFrom? && Succeeds(before, c) {
        SumMoved(before.balances, c.entry.from_, c.entry.to, c.entry.tokens);
      }
    }
  }

  lemma InitialSum(symbol: string, name: string, supply: nat, owner: Address)
    ensures Sum(Initial(symbol, name, supply, owner).balances) == Initial(symbol, name, supply, owner).totalSupply
  {
    var b := Initial(symbol, name, supply, owner).balances;
    SumWithout(b, owner);
    assert b - {owner} == map[];
  }

  // ----- balances -------------------------------------------------------------------------------------------------

  /** The tokens that an account receives by one call, and those that it gives away. */
  function Received(d: Data, c: Call, account: Address): nat {
    if c.entry.TransferFrom? && c.entry.to == account && Succeeds(d, c) then c.entry.tokens else 0
  }

  function Given(d: Data, c: Call, account: Address): nat {
    if c.entry.TransferFrom? && c.entry.from_ == account && Succeeds(d, c) then c.entry.tokens else 0
  }

  function TotalReceived(d: Data, calls: seq<Call>, account: Address): nat {
    if calls == [] then 0
    else
      var before := calls[..|calls| - 1];
      TotalReceived(d, before, account) + Received(After(d, before), calls[|calls| - 1], account)
  }

  function TotalGiven(d: Data, calls: seq<Call>, account: Address): nat {
    if calls == [] then 0
    else
      var before := calls[..|calls| - 1];
      TotalGiven(d, before, account) + Given(After(d, before), calls[|calls| - 1], account)
  }

  lemma OneCallMoves(d: Data, c: Call, account: Address)
    requires account in d.balances
    ensures account in Apply(d, c).balances
    ensures Apply(d, c).balances[account] + Given(d, c, account) == d.balances[account] + Received(d, c, account)
  {
    if c.entry.TransferFrom? && Succeeds(d, c) { TransferMoves(d, c); }
  }

  /** Along every sequence of calls a balance is the first one, plus all that the account has received,
      less all that it has given. */
  lemma {:induction false} BalanceIsFlow(d: Data, calls: seq<Call>, account: Address)
    requires account in d.balances
    ensures account in After(d, calls).balances
    ensures After(d, calls).balances[account] ==
            d.balances[account] + TotalReceived(d, calls, account) - TotalGiven(d, calls, account)
    decreases |calls|
  {
    hide Apply, Given, Received;
    if calls != [] {
      var before := calls[..|calls| - 1];
      BalanceIsFlow(d, before, account);
      OneCallMoves(After(d, before), calls[|calls| - 1], account);
    }
  }

  // ----- allowances -------------------------------------------------------------------------------------------

  /** What a call takes out of an account on behalf of a spender. */
  function Taken(d: Data, c: Call, account: Address, spender: Address): nat {
    if c.sender == spender && c.entry.TransferFrom? && c.entry.from_ == account && Succeeds(d, c) then c.entry.tokens
    else 0
  }

  function TotalTaken(d: Data, calls: seq<Call>, account: Address, spender: Address): nat {
    if calls == [] then 0
    else
      var before := calls[..|calls| - 1];
      TotalTaken(d, before, account, spender) + Taken(After(d, before), calls[|calls| - 1], account, spender)
  }

  predicate Approves(c: Call, account: Address, spender: Address) {
    c.sender == account && c.entry.Approve? && c.entry.spender == spender
  }

  /** A call that is no such approval lowers the allowance by what it takes, and grants none anew. */
  lemma OneCallTakes(d: Data, c: Call, account: Address, spender: Address)
    requires !Approves(c, account, spender)
    ensures var before, after := Allowance(d, account, spender), Allowance(Apply(d, c), account, spender);
            if before.None? then after.None? && Taken(d, c, account, spender) == 0
            else after.Some? && Taken(d, c, account, spender) == before.value - after.value
  {
  }

  /** Between two approvals of a spender by an account, the spender takes out exactly what its allowance
      goes down by, and so never more than the allowance it started with; without one, nothing. */
  lemma {:induction false} TakenFromAllowance(d: Data, calls: seq<Call>, account: Address, spender: Address)
    requires forall i :: 0 <= i < |calls| ==> !Approves(calls[i], account, spender)
    ensures var start, end := Allowance(d, account, spender), Allowance(After(d, calls), account, spender);
            && (start.None? ==> end.None? && TotalTaken(d, calls, account, spender) == 0)
            && (start.Some? ==> end.Some? && TotalTaken(d, calls, account, spender) == start.value - end.value)
    decreases |calls|
  {
    hide Apply, Taken, Allowance;
    if calls != [] {
      var before := calls[..|calls| - 1];
      TakenFromAllowance(d, before, account, spender);
      OneCallTakes(After(d, before), calls[|calls| - 1], account, spender);
    }
  }

  /** From a successful approval on, up to the next one, an allowance is what was approved less what the
      spender has taken since. */
  lemma AllowanceIsApprovedLessTaken(d: Data, c: Call, calls: seq<Call>)
    requires c.entry.Approve? && c.sender in d.allowed
    requires forall i :: 0 <= i < |calls| ==> !Approves(calls[i], c.sender, c.entry.spender)
    ensures var taken := TotalTaken(Apply(d, c), calls, c.sender, c.entry.spender);
            taken <= c.entry.tokens
            && Allowance(After(Apply(d, c), calls), c.sender, c.entry.spender) == Some(c.entry.tokens - taken)
  {
    hide Apply, After, TotalTaken, Allowance;
    ApprovalSets(d, c);
    TakenFromAllowance(Apply(d, c), calls, c.sender, c.entry.spender);
  }

  lemma ApprovalSets(d: Data, c: Call)
    requires c.entry.Approve? && c.sender in d.allowed
    ensures Allowance(Apply(d, c), c.sender, c.entry.spender) == Some(c.entry.tokens)
  {
  }

  /** An approval changes no other allowance, and nothing but allowances. */
  lemma ApprovalIsLocal(d: Data, c: Call, account: Address, spender: Address)
    requires c.entry.Approve? && (account, spender) != (c.sender, c.entry.spender)
    ensures Allowance(Apply(d, c), account, spender) == Allowance(d, account, spender)
    ensures Apply(d, c).(allowed := d.allowed) == d
  {
  }

  /** `allowed` gains no account: from a fresh contract, no approval and no move ever goes through. */
  lemma {:induction false} FreshContractIsFrozen(d: Data, calls: seq<Call>)
    requires d.allowed == map[]
    ensures After(d, calls).allowed == map[] && After(d, calls).balances == d.balances
    ensures calls != [] && (calls[|calls| - 1].entry.Approve? || calls[|calls| - 1].entry.TransferFrom?) ==>
              !Succeeds(After(d, calls[..|calls| - 1]), calls[|calls| - 1])
    decreases |calls|
  {
    if calls != [] {
      FreshContractIsFrozen(d, calls[..|calls| - 1]);
    }
  }

  // ----- ownership --------------------------------------------------------------------------------------------

  /** The address most recently proposed, by whomever; at first the one the state holds. */
  function LastProposed(d: Data, calls: seq<Call>): Option<Address> {
    if calls == [] then d.newOwner
    else
      match calls[|calls| - 1].entry
      case TransferOwnerShip(a) => Some(a)
      case _ => LastProposed(d, calls[..|calls| - 1])
  }

  lemma {:induction false} PendingIsLastProposed(d: Data, calls: seq<Call>)
    ensures After(d, calls).newOwner.Some? ==> After(d, calls).newOwner == LastProposed(d, calls)
    decreases |calls|
  {
    if calls != [] {
      PendingIsLastProposed(d, calls[..|calls| - 1]);
    }
  }

  /** Along every run, a call changes the owner if and only if it is an acceptance sent by the current
      owner of a pending proposal of somebody else; the new owner is the address proposed last. */
  lemma OwnerChangesByAcceptance(d: Data, calls: seq<Call>)
    requires calls != []
    ensures var before, c, d' := After(d, calls[..|calls| - 1]), calls[|calls| - 1], After(d, calls);
            && (d'.owner != before.owner <==>
                c.entry.AcceptOwnership? && c.sender == before.owner && before.newOwner.Some?
                && before.newOwner.value != before.owner)
            && (d'.owner != before.owner ==>
                Some(d'.owner) == LastProposed(d, calls[..|calls| - 1]) && d'.newOwner.None?)
  {
    PendingIsLastProposed(d, calls[..|calls| - 1]);
  }
}
