/** The records the registry stores and exchanges: a service instance's
    registration, and the patches that describe a membership change. */
module Records {

  datatype Option<T> = None | Some(value: T)

  /** Symbolic identity of a service; several instances may share one. */
  type ServiceName = string

  /** The service names the shipped services register under. */
  const LoggerService: ServiceName := "LoggerService"
  const GradeService: ServiceName := "GradeService"
  const PortalService: ServiceName := "Portal"

  /** One service instance as known to the registry. `serviceURL` is the key
      that removal and heartbeats look entries up by. */
  datatype Registration = Registration(
    serviceName: ServiceName,
    serviceURL: string,
    requiredServices: seq<ServiceName>,
    serviceUpdateURL: string,
    heartbeatURL: string)

  /** One instance inside a patch. */
  datatype PatchEntry = PatchEntry(name: ServiceName, url: string)

  /** A membership delta pushed to a dependent's update URL. */
  datatype Patch = Patch(added: seq<PatchEntry>, removed: seq<PatchEntry>)
  {
    predicate IsEmpty() {
      added == [] && removed == []
    }
  }

  /** The patch entry that names registration `r`. */
  function EntryOf(r: Registration): PatchEntry {
    PatchEntry(r.serviceName, r.serviceURL)
  }

  predicate NoDuplicates<T(==)>(s: seq<T>) {
    forall i, j :: 0 <= i < j < |s| ==> s[i] != s[j]
  }
}
