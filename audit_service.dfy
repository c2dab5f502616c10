/** The audit log (services/AuditService.java): entries are only ever appended. */
module AuditService {

  datatype AuditEntry = AuditEntry(user: string, action: string, details: string, status: string)

  class Service {
    var log: seq<AuditEntry>

    constructor ()
      ensures log == []
    {
      log := [];
    }

    /** `logEvent`: saves one entry with the given fields and returns it. */
    method LogEvent(user: string, action: string, details: string, status: string) returns (e: AuditEntry)
      modifies this
      ensures e == AuditEntry(user, action, details, status)
      ensures log == old(log) + [e]
    {
      e := AuditEntry(user, action, details, status);
      log := log + [e];
    }

    /** `getAllLogs`: every entry logged so far. */
    method GetAllLogs() returns (r: seq<AuditEntry>)
      ensures r == log
    {
      r := log;
    }
  }
}
