/**
 * The audit log writer: every call appends one immutable entry, stamped
 * with the clock value at the call, to the append-only audit log.
 */
module AuditLoggerService {
  import opened Wrappers
  import Users

  /** A value in an entry's details: a string or a list of strings (such as error messages). */
  datatype Detail = Text(text: string) | TextList(items: seq<string>)

  type Details = map<string, Detail>

  /** One audit record; `user` is the acting account's id, or none for the system or an anonymous actor. */
  datatype AuditLogEntry = AuditLogEntry(
    action: string, user: Option<nat>, resource: Option<string>, details: Details,
    ipAddress: Option<string>, timestamp: nat)

  const SecurityResource: string := "security"

  function UserRef(user: Option<Users.User>): Option<nat> {
    if user.Some? then Some(user.value.id) else None
  }

  class AuditLogger {
    /** The persisted audit log, oldest entry first. */
    var entries: seq<AuditLogEntry>

    constructor ()
      ensures entries == []
    {
      entries := [];
    }

    /** Appends one entry; null details are stored as an empty map; `now` is the clock. */
    method Log(
      action: string, user: Option<Users.User>, resource: Option<string>,
      details: Option<Details>, ipAddress: Option<string>, now: nat)
      modifies this
      ensures |entries| == |old(entries)| + 1
      ensures entries[..|old(entries)|] == old(entries)
      ensures entries[|old(entries)|] == AuditLogEntry(action, UserRef(user), resource, details.GetOr(map[]), ipAddress, now)
    {
      var entry := AuditLogEntry(action, UserRef(user), resource, details.GetOr(map[]), ipAddress, now);
      entries := entries + [entry];
    }

    /** An action attributed to a known user, never with an IP address. */
    method LogUserAction(user: Users.User, action: string, resource: Option<string>, details: Option<Details>, now: nat)
      modifies this
      ensures entries == old(entries) + [AuditLogEntry(action, Some(user.id), resource, details.GetOr(map[]), None, now)]
    {
      Log(action, Some(user), resource, details, None, now);
      assert entries == entries[..|old(entries)|] + [entries[|old(entries)|]];
    }

    /** A security event: the resource is always "security" and there is never an IP address. */
    method LogSecurityEvent(action: string, user: Option<Users.User>, details: Option<Details>, now: nat)
      modifies this
      ensures entries == old(entries) + [AuditLogEntry(action, UserRef(user), Some(SecurityResource), details.GetOr(map[]), None, now)]
    {
      Log(action, user, Some(SecurityResource), details, None, now);
      assert entries == entries[..|old(entries)|] + [entries[|old(entries)|]];
    }
  }
}
