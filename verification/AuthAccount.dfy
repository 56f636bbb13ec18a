/** An address's tracker together with its one-time authentication flag. */
module AuthAccount {
  import opened Common
  import opened AuthTree
  import opened AuthTracker

  datatype Account = Account(address: Address, tracker: Tracker, verified: bool)

  datatype AccountSnapshot = AccountSnapshot(root: Snapshot, verified: bool)

  datatype AuthorizeResult = NotFound | Granted(account: Account) | Refused(account: Account) | Fault

  /**
    * `authentic` is what signature and nonce checks would answer; they run only for an account that is not
    * verified yet. A refusal keeps the match: the failing frame is about to be rolled back.
    */
  function Authorize(a: Account, f: AuthorizedFunction, allowRoot: bool, authentic: bool): AuthorizeResult {
    match Extend(a.tracker, f, allowRoot)
    case InternalError => Fault
    case NoMatch => NotFound
    case Matched(u) =>
      if a.verified then Granted(a.(tracker := u))
      else if authentic then Granted(a.(tracker := u, verified := true))
      else Refused(a.(tracker := u))
  }

  function PushAccount(a: Account): Account {
    a.(tracker := Push(a.tracker))
  }

  function PopAccount(a: Account): Account {
    a.(tracker := Pop(a.tracker))
  }

  function SnapshotAccount(a: Account): AccountSnapshot {
    AccountSnapshot(TakeSnapshot(a.tracker.root), a.verified)
  }

  function RollbackAccount(a: Account, s: AccountSnapshot): Option<Account> {
    match Rollback(a.tracker, s.root)
    case None => None
    case Some(t) => Some(a.(tracker := t, verified := s.verified))
  }

  /** A grant or a refusal comes from one successful match, and the signature decides which. */
  lemma {:induction false} AuthorizeMatches(a: Account, f: AuthorizedFunction, allowRoot: bool, authentic: bool)
    requires Inv(a.tracker)
    ensures var r := Authorize(a, f, allowRoot, authentic);
      && (r.Fault? <==> a.tracker.stack == [] && allowRoot && Usable(a.tracker.root, f))
      && (r.Granted? || r.Refused? ==>
            && r.account.address == a.address
            && Inv(r.account.tracker)
            && Extends(a.tracker, f, r.account.tracker, Indices(r.account.tracker.stack)))
      && (r.Granted? ==> (a.verified || authentic) && r.account.verified)
      && (r.Refused? ==> !a.verified && !authentic && !r.account.verified)
  {
    ExtendErrorIff(a.tracker, f, allowRoot);
    ExtendInv(a.tracker, f, allowRoot);
  }
}
