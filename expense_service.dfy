/** Tier routing and approval advancement (services/ExpenseService.java),
    over an expense repository kept as a map from id to row. */
module ExpenseService {

  import opened Wrappers
  import opened Expenses
  import opened Sequences

  /** 3000.00 and 20000.00, in cents. */
  const LowLimit: Cents := 300000
  const MediumLimit: Cents := 2000000

  /** Position of a tier in the chain MANAGER -> FINANCE -> ADMIN. */
  function Rank(l: Level): nat {
    match l
    case MANAGER => 0
    case FINANCE => 1
    case ADMIN => 2
  }

  /** The tier `add` routes an amount to: the three bands partition all amounts. */
  function TierFor(amount: Cents): (l: Level)
    ensures l == MANAGER <==> amount < LowLimit
    ensures l == FINANCE <==> LowLimit <= amount < MediumLimit
    ensures l == ADMIN <==> MediumLimit <= amount
  {
    if amount < LowLimit then MANAGER
    else if amount < MediumLimit then FINANCE
    else ADMIN
  }

  /** The priority label `add` writes beside each tier. */
  function PriorityLabel(l: Level): string {
    match l
    case MANAGER => "Low"
    case FINANCE => "Medium"
    case ADMIN => "High"
  }

  /** A larger amount is never routed to a lower tier. */
  lemma TierMonotonic(a: Cents, b: Cents)
    requires a <= b
    ensures Rank(TierFor(a)) <= Rank(TierFor(b))
  {
  }

  /** The setter calls of `add`: priority and tier from the amount, every
      other field (the approval status included) as the caller left it. */
  function Route(e: Expense): (r: Expense)
    ensures r.approvalLevel == Some(TierFor(e.amount))
    ensures r.priority == Some(PriorityLabel(TierFor(e.amount)))
    ensures r.(priority := e.priority, approvalLevel := e.approvalLevel) == e
  {
    var l := TierFor(e.amount);
    e.(priority := Some(PriorityLabel(l)), approvalLevel := Some(l))
  }

  /** One `approve` on a loaded row: the new row and the returned flag. It
      advances the tier by one, and at ADMIN sets APPROVED; it never reads
      the approval status, so nothing stops it on a finished expense. */
  function ApproveStep(e: Expense): (r: (Expense, bool))
    ensures r.1 <==> e.approvalLevel.Some?
    ensures e.approvalLevel.Some? ==>
              && r.0.approvalLevel.Some?
              && Rank(r.0.approvalLevel.value) == if e.approvalLevel.value == ADMIN then 2 else Rank(e.approvalLevel.value) + 1
    ensures r.0.approvalStatus == if e.approvalLevel == Some(ADMIN) then APPROVED else e.approvalStatus
    ensures r.0.(approvalStatus := e.approvalStatus, approvalLevel := e.approvalLevel) == e
  {
    match e.approvalLevel
    case Some(MANAGER) => (e.(approvalLevel := Some(FINANCE)), true)
    case Some(FINANCE) => (e.(approvalLevel := Some(ADMIN)), true)
    case Some(ADMIN) => (e.(approvalStatus := APPROVED), true)
    case None => (e, false)
  }

  /** `n` approvals in a row. */
  function ApproveTimes(e: Expense, n: nat): Expense
    decreases n
  {
    if n == 0 then e else ApproveTimes(ApproveStep(e).0, n - 1)
  }

  /** Approvals an expense at tier `l` needs: 3 from MANAGER, 2 from FINANCE, 1 from ADMIN. */
  function ApprovalsNeeded(l: Level): nat {
    3 - Rank(l)
  }

  /** A pending expense is APPROVED after `n` approvals exactly when `n`
      reaches the number its tier needs; the tier meanwhile never goes down. */
  lemma {:induction false} ApprovedAfter(e: Expense, n: nat)
    requires e.approvalStatus == PENDING && e.approvalLevel.Some?
    ensures ApproveTimes(e, n).approvalLevel.Some?
    ensures Rank(ApproveTimes(e, n).approvalLevel.value) >= Rank(e.approvalLevel.value)
    ensures ApproveTimes(e, n).approvalStatus == APPROVED <==> n >= ApprovalsNeeded(e.approvalLevel.value)
    decreases n
  {
    if n > 0 {
      var e' := ApproveStep(e).0;
      if e.approvalLevel == Some(ADMIN) {
        ApprovedForever(e', n - 1);
      } else {
        ApprovedAfter(e', n - 1);
      }
    }
  }

  /** Once at ADMIN and APPROVED, further approvals change nothing and still report success. */
  lemma {:induction false} ApprovedForever(e: Expense, n: nat)
    requires e.approvalStatus == APPROVED && e.approvalLevel == Some(ADMIN)
    ensures ApproveTimes(e, n) == e
    ensures ApproveStep(e) == (e, true)
    decreases n
  {
    if n > 0 {
      ApprovedForever(ApproveStep(e).0, n - 1);
    }
  }

  /** No terminal-state guard: a REJECTED expense at ADMIN becomes APPROVED. */
  lemma RejectedCanBeApproved(e: Expense)
    requires e.approvalStatus == REJECTED && e.approvalLevel == Some(ADMIN)
    ensures ApproveStep(e) == (e.(approvalStatus := APPROVED), true)
  {
  }

  /** Every stored row carries its own key as its id. */
  ghost predicate KeyedById(m: map<int, Expense>) {
    forall k :: k in m ==> m[k].id == Some(k)
  }

  /** The rows in ascending id order, as `findAll` lists them: each stored
      row below `n` once, since the ids strictly increase along the list. */
  function InIdOrder(m: map<int, Expense>, n: int): (r: seq<Expense>)
    ensures forall i :: 0 <= i < |r| ==> r[i] in m.Values
    ensures forall k :: k in m && 0 <= k < n ==> m[k] in r
    ensures KeyedById(m) ==> forall i :: 0 <= i < |r| ==> r[i].id.Some? && r[i].id.value < n
    ensures KeyedById(m) ==>
              forall i, j :: 0 <= i < j < |r| ==> r[i].id.Some? && r[j].id.Some? && r[i].id.value < r[j].id.value
    decreases n
  {
    if n <= 0 then []
    else InIdOrder(m, n - 1) + (if n - 1 in m then [m[n - 1]] else [])
  }

  function IsOwnedBy(uid: int): Expense -> bool {
    (e: Expense) => e.owner == Some(uid)
  }

  /** `ExpenseService` with the repository it saves into. Ids are identity
      values: the next one is `nextId`, and every stored row carries its key. */
  class Service {
    var repository: map<int, Expense>
    var nextId: int

    ghost predicate Valid()
      reads this
    {
      && 1 <= nextId
      && KeyedById(repository)
      && forall k :: k in repository ==> 1 <= k < nextId
    }

    constructor ()
      ensures Valid() && repository == map[] && nextId == 1
    {
      repository := map[];
      nextId := 1;
    }

    /** `findAll`. */
    function All(): (r: seq<Expense>)
      reads this
      ensures forall i :: 0 <= i < |r| ==> r[i] in repository.Values
      ensures Valid() ==> forall k :: k in repository ==> repository[k] in r
      ensures Valid() ==>
                forall i, j :: 0 <= i < j < |r| ==> r[i].id.Some? && r[j].id.Some? && r[i].id.value < r[j].id.value
    {
      InIdOrder(repository, nextId)
    }

    /** `getAllByUser`: the rows whose owner is `uid`, in repository order. */
    function AllByUser(uid: int): (r: seq<Expense>)
      reads this
      ensures forall e :: e in r <==> e in All() && e.owner == Some(uid)
    {
      Filter(All(), IsOwnedBy(uid))
    }

    /** `save`: a row without a known id is inserted under the next identity
      value; a row whose id is stored replaces the stored one. */
    method Save(e: Expense) returns (saved: Expense)
      requires Valid()
      modifies this
      ensures Valid()
      ensures if e.id.Some? && e.id.value in old(repository) then
                saved == e && repository == old(repository)[e.id.value := e] && nextId == old(nextId)
              else
                saved == e.(id := Some(old(nextId))) && repository == old(repository)[old(nextId) := saved]
                && nextId == old(nextId) + 1
    {
      if e.id.Some? && e.id.value in repository {
        saved := e;
        repository := repository[e.id.value := e];
      } else {
        saved := e.(id := Some(nextId));
        repository := repository[nextId := saved];
        nextId := nextId + 1;
      }
    }

    /** `add`: route by amount, then save. */
    method Add(e: Expense) returns (saved: Expense)
      requires Valid()
      modifies this
      ensures Valid()
      ensures if e.id.Some? && e.id.value in old(repository) then
                saved == Route(e) && repository == old(repository)[e.id.value := saved] && nextId == old(nextId)
              else
                saved == Route(e).(id := Some(old(nextId))) && repository == old(repository)[old(nextId) := saved]
                && nextId == old(nextId) + 1
    {
      saved := Save(Route(e));
    }

    /** `approve(id)`: an unknown id fails with "expense not found!" and saves
      nothing; otherwise the row takes one approval step. */
    method Approve(id: int) returns (r: Result<bool, string>)
      requires Valid()
      modifies this
      ensures Valid() && nextId == old(nextId)
      ensures id !in old(repository) ==> r == Failure("expense not found!") && repository == old(repository)
      ensures id in old(repository) ==>
                r == Success(ApproveStep(old(repository)[id]).1)
                && repository == old(repository)[id := ApproveStep(old(repository)[id]).0]
    {
      if id !in repository {
        return Failure("expense not found!");
      }
      var e := repository[id];
      match e.approvalLevel
      case Some(MANAGER) =>
        repository := repository[id := e.(approvalLevel := Some(FINANCE))];
        r := Success(true);
      case Some(FINANCE) =>
        repository := repository[id := e.(approvalLevel := Some(ADMIN))];
        r := Success(true);
      case Some(ADMIN) =>
        repository := repository[id := e.(approvalStatus := APPROVED)];
        r := Success(true);
      case None =>
        assert repository[id := e] == repository;
        r := Success(false);
    }
  }
}
