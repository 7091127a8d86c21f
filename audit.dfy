/** The audit service: every audited action appends one row to the audit log, stamped
    with the client address taken from the current request. */
module AuditService {
  import opened Options
  import opened Text
  import opened Entities

  /** What the service reads of the current request: the first `X-Forwarded-For` header
      value, if any, and the remote address of the connection, if known. */
  datatype HttpContext = HttpContext(forwardedFor: Option<string>, remoteIp: Option<string>)

  const UNKNOWN: string := "Unknown"

  /** The first hop of an `X-Forwarded-For` value: the text before the first comma, trimmed.
      It neither starts nor ends with white space. */
  function FirstHop(xff: string): (r: string)
    ensures r == [] || (!IsWhiteSpace(r[0]) && !IsWhiteSpace(r[|r| - 1]))
  {
    Trim(FirstField(xff, ','))
  }

  /** The first hop holds no comma and is the piece of the header that starts after the
      leading white space of its first field, so no comma precedes it. */
  lemma FirstHopLocation(xff: string)
    ensures var r := FirstHop(xff);
            var k := LeadingBlanks(FirstField(xff, ','));
            && ',' !in r
            && k + |r| <= |xff| && xff[k..k + |r|] == r && ',' !in xff[..k]
  {
    var first := FirstField(xff, ',');
    var r := FirstHop(xff);
    var k := LeadingBlanks(first);
    assert r == first[k..k + |r|];
    assert first == xff[..|first|];
    SliceAvoids(first, k, k + |r|, ',');
    SliceAvoids(first, 0, k, ',');
    SlicesOfPrefix(xff, |first|, k, k + |r|);
  }

  /** A piece of a string lacks every character the string lacks. */
  lemma SliceAvoids(s: string, i: int, j: int, ch: char)
    requires 0 <= i <= j <= |s| && ch !in s
    ensures ch !in s[i..j]
  {
  }

  lemma SlicesOfPrefix(s: string, n: nat, i: nat, j: nat)
    requires i <= j <= n <= |s|
    ensures s[..n][i..j] == s[i..j] && s[..n][..i] == s[..i]
  {
  }

  /** The client address of a request: "Unknown" outside a request; the first hop of a
      non-empty `X-Forwarded-For`; otherwise the remote address, or "Unknown". */
  function GetClientIpAddress(ctx: Option<HttpContext>): (r: string)
    ensures ctx.None? ==> r == UNKNOWN
    ensures ctx.Some? && IsNullOrEmpty(ctx.value.forwardedFor) ==>
              r == (if ctx.value.remoteIp.Some? then ctx.value.remoteIp.value else UNKNOWN)
    ensures ctx.Some? && !IsNullOrEmpty(ctx.value.forwardedFor) ==> r == FirstHop(ctx.value.forwardedFor.value)
  {
    match ctx
    case None => UNKNOWN
    case Some(c) =>
      if !IsNullOrEmpty(c.forwardedFor) then FirstHop(c.forwardedFor.value)
      else if c.remoteIp.Some? then c.remoteIp.value
      else UNKNOWN
  }

  /** A proxy chain "client, proxy1, proxy2" is reduced to its first hop: whatever follows
      the first comma does not matter. */
  lemma OnlyFirstHopCounts(first: string, rest: string, rest': string, remote: Option<string>)
    requires ',' !in first
    ensures GetClientIpAddress(Some(HttpContext(Some(first + "," + rest), remote)))
            == GetClientIpAddress(Some(HttpContext(Some(first + "," + rest'), remote)))
    ensures GetClientIpAddress(Some(HttpContext(Some(first + "," + rest), remote))) == Trim(first)
  {
    FirstFieldOfJoin(first, rest);
    FirstFieldOfJoin(first, rest');
  }

  lemma {:induction false} FirstFieldOfJoin(first: string, rest: string)
    requires ',' !in first
    ensures FirstField(first + "," + rest, ',') == first
  {
    if first == [] {
      assert (first + "," + rest)[0] == ',';
    } else {
      assert (first + "," + rest)[1..] == first[1..] + "," + rest;
      FirstFieldOfJoin(first[1..], rest);
    }
  }

  /** A single clean address in the header is taken as it is, and the remote address is
      then ignored. */
  lemma SingleForwardedAddress(ip: string, remote: Option<string>)
    requires ip != [] && ',' !in ip && !IsWhiteSpace(ip[0]) && !IsWhiteSpace(ip[|ip| - 1])
    ensures GetClientIpAddress(Some(HttpContext(Some(ip), remote))) == ip
  {
    FirstFieldWhole(ip);
  }

  lemma {:induction false} FirstFieldWhole(s: string)
    requires ',' !in s
    ensures FirstField(s, ',') == s
  {
    if s != [] {
      FirstFieldWhole(s[1..]);
    }
  }

  /** `LogAsync`: appends one row for the signed-in user's action, with the client address
      of the current request and the current time. */
  method Log(db: Store, userId: string, action: string, entityType: string,
             entityId: Option<int>, details: Option<string>, ctx: Option<HttpContext>, now: int)
    modifies db`auditLogs
    ensures db.auditLogs == old(db.auditLogs)
              + [AuditLog(Some(userId), action, entityType, entityId, details, GetClientIpAddress(ctx), now)]
  {
    var ipAddress := GetClientIpAddress(ctx);
    db.auditLogs := db.auditLogs + [AuditLog(Some(userId), action, entityType, entityId, details, ipAddress, now)];
  }
}
