/** The runtime snapshot of each origin and the setters that update its fields in place. */
module OriginRuntime {
  import opened Common

  /** Why a refresh failed; the source keeps the rendered message. */
  datatype RefreshError =
    | InvalidListing(key: string)
    | DownloadFailed(key: string)
    | BarrierMissing
    | BarrierUnchanged
    | ConfigRejected
    | TemplateRejected
    | ActivateFailed
    | RestoreFailed
    | BackupNotRemoved
    | DiskFailed

  datatype CdnStatus = CdnStatus(
    provider: Option<string>,
    status: Option<string>,
    requestId: Option<string>,
    requestIds: seq<string>,
    refreshedAt: Option<nat>,
    submittedItems: Option<nat>,
    error: Option<string>)

  datatype DomainStatus = DomainStatus(
    provider: Option<string>,
    status: Option<string>,
    reconciledAt: Option<nat>,
    added: Option<nat>,
    updated: Option<nat>,
    removed: Option<nat>,
    unmodified: Option<nat>,
    error: Option<string>)

  datatype Activation = Activation(
    activatedAt: Option<nat>,
    capturedAt: Option<nat>,
    knownFiles: nat,
    addedFiles: nat,
    modifiedFiles: nat,
    removedFiles: nat,
    unmodifiedFiles: nat,
    downloadedFiles: nat)

  datatype OriginSnapshot = OriginSnapshot(
    originId: string,
    generation: nat,
    activation: Activation,
    lastError: Option<RefreshError>,
    cdn: CdnStatus,
    domain: DomainStatus)

  const NO_CDN := CdnStatus(None, None, None, [], None, None, None)
  const NO_DOMAIN := DomainStatus(None, None, None, None, None, None, None, None)
  const NO_ACTIVATION := Activation(None, None, 0, 0, 0, 0, 0, 0)

  /** A purge as the caller sees it: nothing to do, submitted, or failed after some requests. */
  datatype PurgeOutcome =
    | NothingToPurge
    | Submitted(provider: string, status: string, requestIds: seq<string>, submittedItems: nat)
    | PurgeFailed(provider: string, requestIds: seq<string>, submittedItems: nat, message: string)

  function FirstOf(ids: seq<string>): Option<string> {
    if ids == [] then None else Some(ids[0])
  }

  /** The generation a store shows; an origin without a snapshot counts as generation 0. */
  function GenerationOf(previous: Option<OriginSnapshot>): nat {
    if previous.Some? then previous.value.generation else 0
  }

  function AfterSnapshot(previous: Option<OriginSnapshot>, snapshot: OriginSnapshot): OriginSnapshot {
    if previous.Some? then snapshot.(cdn := previous.value.cdn, domain := previous.value.domain) else snapshot
  }

  function AfterError(previous: Option<OriginSnapshot>, originId: string, error: RefreshError): OriginSnapshot {
    if previous.Some? then previous.value.(lastError := Some(error))
    else OriginSnapshot(originId, 0, NO_ACTIVATION, Some(error), NO_CDN, NO_DOMAIN)
  }

  function WithCdnResult(snapshot: OriginSnapshot, provider: string, status: string, requestIds: seq<string>,
                         submittedItems: nat, now: nat): OriginSnapshot
  {
    snapshot.(cdn := CdnStatus(Some(provider), Some(status), FirstOf(requestIds), requestIds, Some(now), Some(submittedItems), None))
  }

  function WithCdnError(snapshot: OriginSnapshot, error: string): OriginSnapshot {
    snapshot.(cdn := snapshot.cdn.(error := Some(error)))
  }

  /** A failed purge first records the requests that went through, if any, then the error. */
  function AfterPurge(snapshot: OriginSnapshot, outcome: PurgeOutcome, now: nat): OriginSnapshot {
    match outcome
    case NothingToPurge => snapshot
    case Submitted(provider, status, ids, items) => WithCdnResult(snapshot, provider, status, ids, items, now)
    case PurgeFailed(provider, ids, items, message) =>
      WithCdnError(if ids == [] then snapshot else WithCdnResult(snapshot, provider, "partial_failure", ids, items, now), message)
  }

  class OriginRuntimeStore {
    var snapshots: map<string, OriginSnapshot>

    constructor ()
      ensures snapshots == map[]
    {
      snapshots := map[];
    }

    function Get(originId: string): Option<OriginSnapshot>
      reads this
    {
      if originId in snapshots then Some(snapshots[originId]) else None
    }

    method SetSnapshot(snapshot: OriginSnapshot)
      modifies this
      ensures snapshots == old(snapshots)[snapshot.originId := AfterSnapshot(old(Get(snapshot.originId)), snapshot)]
    {
      var stored := snapshot;
      if snapshot.originId in snapshots {
        var previous := snapshots[snapshot.originId];
        stored := stored.(cdn := previous.cdn, domain := previous.domain);
      }
      snapshots := snapshots[snapshot.originId := stored];
    }

    method SetError(originId: string, error: RefreshError)
      modifies this
      ensures snapshots == old(snapshots)[originId := AfterError(old(Get(originId)), originId, error)]
    {
      if originId in snapshots {
        snapshots := snapshots[originId := snapshots[originId].(lastError := Some(error))];
      } else {
        snapshots := snapshots[originId := OriginSnapshot(originId, 0, NO_ACTIVATION, Some(error), NO_CDN, NO_DOMAIN)];
      }
    }

    method SetCdnResult(originId: string, provider: string, status: string, requestIds: seq<string>,
                        submittedItems: nat, now: nat)
      modifies this
      ensures snapshots == if originId !in old(snapshots) then old(snapshots)
        else old(snapshots)[originId := WithCdnResult(old(snapshots)[originId], provider, status, requestIds, submittedItems, now)]
    {
      if originId in snapshots {
        var cdn := CdnStatus(Some(provider), Some(status), FirstOf(requestIds), requestIds, Some(now), Some(submittedItems), None);
        snapshots := snapshots[originId := snapshots[originId].(cdn := cdn)];
      }
    }

    method SetCdnError(originId: string, error: string)
      modifies this
      ensures snapshots == if originId !in old(snapshots) then old(snapshots)
        else old(snapshots)[originId := WithCdnError(old(snapshots)[originId], error)]
    {
      if originId in snapshots {
        var cdn := snapshots[originId].cdn;
        snapshots := snapshots[originId := snapshots[originId].(cdn := cdn.(error := Some(error)))];
      }
    }
  }
}
