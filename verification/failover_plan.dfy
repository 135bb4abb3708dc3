/** What to do with work parked behind an account limit: the pure policy the
    coordinator asks twice per recovery pass (server/lib/policies/failover.py). */
module FailoverPlan {

  // FAILED is the verdict of a pass that raised; NOT_CHECKED means the selector has not run.
  datatype Verdict = NotChecked | Usable | NoAccount | Inconclusive | Failed

  // The coordinator hands over a list; the plan only asks whether it is empty
  // and puts all/any questions to it, so a set of snapshots decides the same.
  datatype PendingWork = PendingWork(model: string, stopped: bool)

  datatype Settings = Settings(recheckSeconds: real, maxParkSeconds: real)

  datatype ParkReason = RecheckNotDue | UncheckedModel | NoUsableAccount | InconclusiveCheck | RecoveryFailed

  datatype ReleaseReason = NoOwnedWork | ParkExpired

  datatype Decision =
    | Kill
    | Check(models: set<string>)
    | Resume
    | Park(why: ParkReason, delay: real)
    | Release(reason: ReleaseReason)

  datatype Plan = Plan(parkedSince: real, nextCheck: real, checkedModels: set<string>) {

    function Decide(pending: set<PendingWork>, verdict: Verdict, now: real, settings: Settings): Decision {
      if pending == {} then
        Release(NoOwnedWork)
      else if verdict == NotChecked then
        if exists item :: item in pending && !item.stopped then
          Kill
        else if nextCheck - now > 0.0 then
          Park(RecheckNotDue, nextCheck - now)
        else
          Check(set item | item in pending :: item.model)
      else if verdict == Usable && (forall item :: item in pending ==> item.model in checkedModels) then
        Resume
      else if now - parkedSince >= settings.maxParkSeconds then
        Release(ParkExpired)
      else
        Park(Complaint(verdict), settings.recheckSeconds)
    }
  }

  function Complaint(verdict: Verdict): ParkReason {
    match verdict
    case Usable => UncheckedModel
    case NoAccount => NoUsableAccount
    case Inconclusive => InconclusiveCheck
    case _ => RecoveryFailed
  }
}
