/**
 The install's link to a cloud provider, its cloud identities and the local-login fallback
 (backend/app/api/cloud.py:152-208, 321-542, 910-929, 932-1063, 1074-1258;
 backend/app/cloud/sync.py:151-253; backend/app/models/cloud.py:101-106): the client side of the
 device authorization grant (section 3.5 of RFC 8628) with scope upgrades on a live link. Every
 request is one step; what the provider answers is a parameter of the step.
 */
module CloudLink {
  import opened Options

  datatype Status = Disconnected | Connecting | Connected

  /** A device code or access token, with the provider that issued it. */
  datatype Secret = Secret(issuer: string, text: string)

  const AUTH_LOGIN := "auth:login"
  const KNOWN_SCOPES := {"backend:link", "backend:read", AUTH_LOGIN, "store:read", "store:publish", "gallery:read",
                         "backup:scenes", "backup:frames", "backup:assets", "remote:access", "telemetry:logs",
                         "telemetry:metrics"}
  const BASE_SCOPES := {"backend:link", "backend:read"}
  const INCLUDED_SCOPES := {"backup:scenes", "backup:frames", "store:publish"}
  const DEFAULT_SCOPES := BASE_SCOPES + INCLUDED_SCOPES

  /** The fields of the link row that the protocol turns on. */
  datatype Link = Link(
    provider: string, status: Status, deviceCode: Option<Secret>, expiresAt: Option<int>,
    accessToken: Option<Secret>, scope: set<string>, accountId: Option<string>, localFallback: bool,
    pollError: Option<string>)
  {
    /** `_reset_link`. */
    function Reset(error: Option<string>): Link {
      Link(provider, Disconnected, None, None, None, {}, None, true, error)
    }

    /** `_clear_upgrade`. */
    function ClearUpgrade(error: Option<string>): Link {
      this.(deviceCode := None, expiresAt := None, pollError := error)
    }

    predicate UpgradePending() {
      status == Connected && deviceCode.Some?
    }

    predicate Expired(now: int) {
      status == Connecting && expiresAt.Some? && expiresAt.value <= now
    }

    predicate CanEditProvider(now: int) {
      match status
      case Connected => false
      case Connecting => Expired(now) || deviceCode.None?
      case Disconnected => true
    }

    /** What asking for the status changes: an expired grant is over, an expired upgrade forgotten. */
    function Refresh(now: int): Link {
      if Expired(now) then Reset(Some("expired"))
      else if UpgradePending() && expiresAt.Some? && expiresAt.value <= now then ClearUpgrade(Some("expired"))
      else this
    }
  }

  /** (issuer, subject): unique among the identity rows. */
  type Principal = (string, string)

  /** An identity row; `order` is its row id. */
  datatype Identity = Identity(user: nat, provider: string, account: Option<string>, order: nat)

  /** What the provider says about a person. */
  datatype Claims = Claims(issuer: string, subject: string, account: Option<string>)

  /** The provider's answer; an absent text is "", an absent lifetime 0. */
  datatype Reply =
    | NetworkError
    | Http(status: int, error: string, outcome: string, deviceCode: string, accessToken: string,
           scope: Option<set<string>>, expiresIn: nat, approvedBy: Option<Claims>)

  datatype Request =
    | GetStatus
    | UpdateProvider(url: Option<string>)           // None: not a usable URL
    | StartConnect(given: bool, url: Option<string>, scopes: set<string>, reply: Reply)
    | Poll(user: Option<nat>, reply: Reply, owner: Option<string>)
    | Disconnect
    | SetLocalFallback(enabled: bool, user: Option<nat>, verified: bool)
    | SetFeatures(scopes: set<string>, readable: bool, reply: Reply)
    | CancelFeatures
    | LinkIdentity(userId: nat, readable: bool, claims: Option<Claims>)
    | Login(readable: bool, claims: Option<Claims>, newUser: nat)
    | UnlinkIdentity(user: Option<nat>)
    | SyncGrants(readable: bool, status: int, owner: Option<string>)

  datatype Identities = Identities(rows: map<Principal, Identity>, next: nat) {
    /** `_upsert_cloud_identity`. */
    function Upsert(user: nat, provider: string, c: Claims): Identities {
      var p := (c.issuer, c.subject);
      var order := if p in rows then rows[p].order else next;
      Identities(rows[p := Identity(user, provider, c.account, order)], if p in rows then next else next + 1)
    }

    /** Linking never takes an identity away from another user. */
    function Claim(user: nat, provider: string, c: Option<Claims>): Identities {
      if c.None? || c.value.issuer == "" || c.value.subject == "" then this
      else if (c.value.issuer, c.value.subject) in rows &&
              rows[(c.value.issuer, c.value.subject)].user != user then this
      else Upsert(user, provider, c.value)
    }

    function Without(user: nat): Identities {
      Identities(map p | p in rows && rows[p].user != user :: rows[p], next)
    }

    /** The user's newest identity at this provider belongs to this account. */
    predicate OwnedBy(user: nat, provider: string, account: Option<string>) {
      account.Some? && account.value != "" &&
      exists p | p in rows ::
        rows[p].user == user && rows[p].provider == provider && rows[p].account == account &&
        forall q | q in rows && rows[q].user == user && rows[q].provider == provider :: rows[q].order <= rows[p].order
    }

    predicate AccountKnown(account: Option<string>, provider: string) {
      account.Some? && account.value != "" &&
      exists p | p in rows :: rows[p].account == account && rows[p].provider == provider
    }
  }

  /** The scopes asked for, or the default ones when none of them is known. */
  function RequestedScopes(scopes: set<string>): set<string> {
    var known := (if scopes == {} then DEFAULT_SCOPES else scopes) * KNOWN_SCOPES;
    if known == {} then DEFAULT_SCOPES else known
  }

  /** The scopes of a feature change: base and included scopes are always kept. */
  function FeatureScopes(scopes: set<string>): set<string> {
    BASE_SCOPES + scopes * KNOWN_SCOPES + INCLUDED_SCOPES
  }

  function ErrorOr(reply: Reply): Option<string>
    requires reply.Http?
  {
    Some(if reply.error != "" then reply.error else "unexpected status")
  }

  function Expiry(now: int, expiresIn: nat): Option<int> {
    if expiresIn > 0 then Some(now + expiresIn) else None
  }

  /** The install: its link row, its users and their identities; `fallbackUrl` is the configured
      provider, absent when the cloud is disabled. */
  datatype State = State(link: Option<Link>, users: set<nat>, ids: Identities, fallbackUrl: Option<string>) {

    function With(l: Link): State {
      this.(link := Some(l))
    }

    function Refreshed(now: int): State {
      if link.None? then this else With(link.value.Refresh(now))
    }

    function UpdatedProvider(url: Option<string>, now: int): State {
      if url.None? || (link.Some? && !link.value.CanEditProvider(now)) then this
      else if link.None? then
        With(Link(url.value, Disconnected, None, None, None, {}, None, true, None)).Refreshed(now)
      else
        var l := if link.value.status != Disconnected then link.value.Reset(None) else link.value;
        With(l.(provider := url.value, pollError := None)).Refreshed(now)
    }

    function ConnectUrl(given: bool, url: Option<string>): Option<string> {
      if given then url else if link.Some? then Some(link.value.provider) else fallbackUrl
    }

    function StartedConnect(given: bool, url: Option<string>, scopes: set<string>, reply: Reply, now: int): State {
      var target := ConnectUrl(given, url);
      if (link.Some? && link.value.status == Connected) || target.None? then this
      else if reply.NetworkError? || reply.status != 200 || reply.deviceCode == "" then this
      else With(Link(target.value, Connecting, Some(Secret(target.value, reply.deviceCode)),
                     Expiry(now, reply.expiresIn), None, RequestedScopes(scopes), None, true, None)).Refreshed(now)
    }

    function PolledUpgrade(reply: Reply, now: int): State
      requires link.Some?
    {
      var l := link.value;
      if reply.NetworkError? then With(l.(pollError := Some("network_error"))).Refreshed(now)
      else if reply.error == "authorization_pending" then With(l.(pollError := None)).Refreshed(now)
      else if reply.status == 200 && reply.scope.Some? && reply.accessToken == "" then
        With(l.(scope := reply.scope.value).ClearUpgrade(None)).Refreshed(now)
      else With(l.ClearUpgrade(ErrorOr(reply))).Refreshed(now)
    }

    function Approved(user: Option<nat>, reply: Reply, owner: Option<string>): State
      requires link.Some? && reply.Http?
    {
      var l := link.value;
      var connected := l.(status := Connected, accessToken := Some(Secret(l.provider, reply.accessToken)),
                          scope := if reply.scope.Some? then reply.scope.value else l.scope,
                          deviceCode := None, expiresAt := None, pollError := None,
                          accountId := if owner.Some? then owner else l.accountId);
      State(Some(connected), users,
            if user.Some? then ids.Claim(user.value, l.provider, reply.approvedBy) else ids, fallbackUrl)
    }

    function Polled(user: Option<nat>, reply: Reply, owner: Option<string>, now: int): State {
      if link.Some? && link.value.UpgradePending() then PolledUpgrade(reply, now)
      else if link.None? || link.value.status != Connecting || link.value.deviceCode.None? then Refreshed(now)
      else
        var l := link.value;
        if reply.NetworkError? then With(l.(pollError := Some("network_error"))).Refreshed(now)
        else if reply.error == "authorization_pending" then With(l.(pollError := None)).Refreshed(now)
        else if reply.status == 200 && reply.accessToken != "" then Approved(user, reply, owner).Refreshed(now)
        else With(l.Reset(ErrorOr(reply))).Refreshed(now)
    }

    function WithLocalFallback(enabled: bool, user: Option<nat>, verified: bool, now: int): State {
      if link.None? then this
      else if enabled then With(link.value.(localFallback := true)).Refreshed(now)
      else if user.None? || link.value.status != Connected || AUTH_LOGIN !in link.value.scope then this
      else if !ids.OwnedBy(user.value, link.value.provider, link.value.accountId) || !verified then this
      else With(link.value.(localFallback := false)).Refreshed(now)
    }

    function WithFeatures(scopes: set<string>, readable: bool, reply: Reply, now: int): State {
      if link.None? || link.value.status != Connected || !readable || link.value.deviceCode.Some? then this
      else if reply.NetworkError? || reply.status != 200 then this
      else
        var l := link.value;
        if reply.outcome == "updated" then
          var granted := if reply.scope.Some? then reply.scope.value else l.scope;
          var keeps := AUTH_LOGIN in FeatureScopes(scopes) && AUTH_LOGIN in granted;
          With(l.(scope := granted, localFallback := if keeps then l.localFallback else true, pollError := None))
            .Refreshed(now)
        else if reply.outcome == "approval_required" && reply.deviceCode != "" then
          With(l.(deviceCode := Some(Secret(l.provider, reply.deviceCode)), expiresAt := Expiry(now, reply.expiresIn),
                  pollError := None)).Refreshed(now)
        else this
    }

    /** The login callback in link mode. */
    function LinkedIdentity(user: nat, readable: bool, claims: Option<Claims>): State {
      if link.None? || link.value.status != Connected || !readable || user !in users then this
      else this.(ids := ids.Claim(user, link.value.provider, claims))
    }

    /** The login callback in login mode: only the very first user is created from the cloud. */
    function LoggedIn(readable: bool, claims: Option<Claims>, newUser: nat): State {
      if link.None? || link.value.status != Connected || !readable || claims.None? then this
      else if claims.value.issuer == "" || claims.value.subject == "" then this
      else if (claims.value.issuer, claims.value.subject) in ids.rows
              || ids.AccountKnown(claims.value.account, link.value.provider) || users != {} then this
      else this.(users := {newUser}, ids := ids.Upsert(newUser, link.value.provider, claims.value))
    }

    function Unlinked(user: Option<nat>, now: int): State {
      if user.None? || (link.Some? && link.value.status == Connected && !link.value.localFallback) then this
      else this.(ids := ids.Without(user.value)).Refreshed(now)
    }

    function Synced(readable: bool, status: int, owner: Option<string>): State {
      if link.None? || link.value.status != Connected || !readable then this
      else if status == 401 then With(link.value.Reset(Some("revoked")))
      else if status == 200 && owner.Some? then With(link.value.(accountId := owner))
      else this
    }

    function Step(req: Request, now: int): State {
      match req
      case GetStatus => Refreshed(now)
      case UpdateProvider(url) => UpdatedProvider(url, now)
      case StartConnect(given, url, scopes, reply) => StartedConnect(given, url, scopes, reply, now)
      case Poll(user, reply, owner) => Polled(user, reply, owner, now)
      case Disconnect => if link.None? then this else With(link.value.Reset(None)).Refreshed(now)
      case SetLocalFallback(enabled, user, verified) => WithLocalFallback(enabled, user, verified, now)
      case SetFeatures(scopes, readable, reply) => WithFeatures(scopes, readable, reply, now)
      case CancelFeatures =>
        (if link.Some? && link.value.UpgradePending() then With(link.value.ClearUpgrade(None)) else this).Refreshed(now)
      case LinkIdentity(user, readable, claims) => LinkedIdentity(user, readable, claims)
      case Login(readable, claims, newUser) => LoggedIn(readable, claims, newUser)
      case UnlinkIdentity(user) => Unlinked(user, now)
      case SyncGrants(readable, status, owner) => Synced(readable, status, owner)
    }

    // ---- what holds in every reachable state ----------------------------------------

    /** Credentials belong to the current provider, and the status says which are held. */
    ghost predicate CredentialsInOrder() {
      link.Some? ==>
        var l := link.value;
        (l.deviceCode.Some? ==> l.deviceCode.value.issuer == l.provider) &&
        (l.accessToken.Some? ==> l.accessToken.value.issuer == l.provider) &&
        match l.status
        case Connecting => l.deviceCode.Some? && l.accessToken.None?
        case Connected => l.accessToken.Some?
        case Disconnected => l.deviceCode.None? && l.accessToken.None?
    }

    /** Local login is off only while connected, with an identity of this provider to log in by. */
    ghost predicate NoLockout() {
      link.Some? && !link.value.localFallback ==>
        link.value.status == Connected && exists p | p in ids.rows :: ids.rows[p].provider == link.value.provider
    }

    /** ... and while the link may be used to log in. */
    ghost predicate LoginScopeHeld() {
      link.Some? && !link.value.localFallback ==> AUTH_LOGIN in link.value.scope
    }

    /** This request is an approved upgrade without the login scope, with local login off. */
    predicate DropsLogin(req: Request) {
      req.Poll? && link.Some? && link.value.UpgradePending() && !link.value.localFallback &&
      req.reply.Http? && req.reply.error != "authorization_pending" && req.reply.status == 200 &&
      req.reply.accessToken == "" && req.reply.scope.Some? && AUTH_LOGIN !in req.reply.scope.value
    }
  }

  // ---- the code ---------------------------------------------------------------------

  class Install {
    var hasLink: bool
    var provider: string
    var status: Status
    var deviceCode: Option<Secret>
    var expiresAt: Option<int>
    var accessToken: Option<Secret>
    var scope: set<string>
    var accountId: Option<string>
    var localFallback: bool
    var pollError: Option<string>
    var users: set<nat>
    var identities: map<Principal, Identity>
    var nextOrder: nat
    const fallbackUrl: Option<string>

    constructor (users: set<nat>, fallbackUrl: Option<string>)
      ensures Abstract() == Fresh(users, fallbackUrl)
    {
      hasLink, provider, status, deviceCode, expiresAt := false, "", Disconnected, None, None;
      accessToken, scope, accountId, localFallback, pollError := None, {}, None, true, None;
      this.users, identities, nextOrder, this.fallbackUrl := users, map[], 0, fallbackUrl;
    }

    ghost function Row(): Link
      reads this
    {
      Link(provider, status, deviceCode, expiresAt, accessToken, scope, accountId, localFallback, pollError)
    }

    ghost function Abstract(): State
      reads this
    {
      State(if hasLink then Some(Row()) else None, users, Identities(identities, nextOrder), fallbackUrl)
    }

    /** `_reset_link`: losing the link always re-enables local login. */
    method ResetLink(error: Option<string>)
      modifies this`status, this`deviceCode, this`expiresAt, this`accessToken, this`accountId, this`scope,
               this`pollError, this`localFallback
      ensures Row() == old(Row()).Reset(error)
    {
      status := Disconnected;
      deviceCode := None;
      expiresAt := None;
      accessToken := None;
      accountId := None;
      scope := {};
      pollError := error;
      localFallback := true;
    }

    /** `_clear_upgrade`. */
    method ClearUpgrade(error: Option<string>)
      modifies this`deviceCode, this`expiresAt, this`pollError
      ensures Row() == old(Row()).ClearUpgrade(error)
    {
      deviceCode := None;
      expiresAt := None;
      pollError := error;
    }

    /** The part of `_status_payload` that changes the row. */
    method StatusPayload(now: int)
      modifies this
      ensures Abstract() == old(Abstract()).Refreshed(now)
    {
      if hasLink && status == Connecting && expiresAt.Some? && expiresAt.value <= now {
        ResetLink(Some("expired"));
      }
      if hasLink && status == Connected && deviceCode.Some? && expiresAt.Some? && expiresAt.value <= now {
        ClearUpgrade(Some("expired"));
      }
    }

    method UpdateProvider(url: Option<string>, now: int)
      modifies this
      ensures Abstract() == old(Abstract()).UpdatedProvider(url, now)
    {
      if url.None? {
        return;
      }
      var canEdit := !hasLink ||
                     match status
                     case Connected => false
                     case Connecting => (expiresAt.Some? && expiresAt.value <= now) || deviceCode.None?
                     case Disconnected => true;
      if !canEdit {
        return;
      }
      if !hasLink {
        NewRow(url.value);
      } else {
        if status != Disconnected {
          ResetLink(None);
        }
        provider := url.value;
        pollError := None;
      }
      StatusPayload(now);
    }

    /** `CloudBackendLink(provider_url=...)` with its column defaults. */
    method NewRow(url: string)
      modifies this
      ensures Abstract() == old(Abstract()).With(Link(url, Disconnected, None, None, None, {}, None, true, None))
    {
      hasLink, provider := true, url;
      ResetLink(None);
    }

    method StartConnect(given: bool, url: Option<string>, scopes: set<string>, reply: Reply, now: int)
      modifies this
      ensures Abstract() == old(Abstract()).StartedConnect(given, url, scopes, reply, now)
    {
      hide State.Refreshed, RequestedScopes;
      if hasLink && status == Connected {
        return;
      }
      var target := if given then url else if hasLink then Some(provider) else fallbackUrl;
      if target.None? {
        return;
      }
      if reply.NetworkError? || reply.status != 200 || reply.deviceCode == "" {
        return;
      }
      if !hasLink {
        NewRow(target.value);
      }
      AwaitApproval(target.value, RequestedScopes(scopes), reply, now);
      StatusPayload(now);
    }

    /** The grant has started: the row now waits for its approval. */
    method AwaitApproval(target: string, wanted: set<string>, reply: Reply, now: int)
      requires hasLink && reply.Http?
      modifies this
      ensures Abstract() == old(Abstract()).With(
                Link(target, Connecting, Some(Secret(target, reply.deviceCode)), Expiry(now, reply.expiresIn), None,
                     wanted,
                     None, true, None))
    {
      ResetLink(None);
      provider := target;
      status := Connecting;
      deviceCode := Some(Secret(target, reply.deviceCode));
      scope := wanted;
      if reply.expiresIn > 0 {
        expiresAt := Some(now + reply.expiresIn);
      }
    }

    method PollUpgrade(reply: Reply, now: int)
      requires hasLink
      modifies this
      ensures Abstract() == old(Abstract()).PolledUpgrade(reply, now)
    {
      if reply.NetworkError? {
        pollError := Some("network_error");
      } else if reply.error == "authorization_pending" {
        pollError := None;
      } else if reply.status == 200 && reply.scope.Some? && reply.accessToken == "" {
        scope := reply.scope.value;
        ClearUpgrade(None);
      } else {
        ClearUpgrade(ErrorOr(reply));
      }
      StatusPayload(now);
    }

    method PollLink(user: Option<nat>, reply: Reply, owner: Option<string>, now: int)
      modifies this
      ensures Abstract() == old(Abstract()).Polled(user, reply, owner, now)
    {
      hide State.Refreshed, State.PolledUpgrade, State.Approved;
      if hasLink && status == Connected && deviceCode.Some? {
        PollUpgrade(reply, now);
        return;
      }
      if hasLink && status == Connecting && deviceCode.Some? {
        if reply.NetworkError? {
          pollError := Some("network_error");
        } else if reply.error == "authorization_pending" {
          pollError := None;
        } else if reply.status == 200 && reply.accessToken != "" {
          Approve(user, reply, owner);
        } else {
          ResetLink(ErrorOr(reply));
        }
      }
      StatusPayload(now);
    }

    /** The link is approved: token, scope, owner and the approving person's identity. */
    method Approve(user: Option<nat>, reply: Reply, owner: Option<string>)
      requires hasLink && reply.Http?
      modifies this
      ensures Abstract() == old(Abstract()).Approved(user, reply, owner)
    {
      hide Identities.Claim, ErrorOr;
      status := Connected;
      accessToken := Some(Secret(provider, reply.accessToken));
      if reply.scope.Some? {
        scope := reply.scope.value;
      }
      deviceCode := None;
      expiresAt := None;
      pollError := None;
      if owner.Some? {
        accountId := owner;
      }
      if user.Some? {
        ClaimIdentity(user.value, reply.approvedBy);
      }
    }

    /** `_auto_link_identity`, and the same check in the login callback. */
    method ClaimIdentity(user: nat, claims: Option<Claims>)
      modifies this`identities, this`nextOrder
      ensures Identities(identities, nextOrder) == old(Identities(identities, nextOrder)).Claim(user, provider, claims)
    {
      if claims.None? || claims.value.issuer == "" || claims.value.subject == "" {
        return;
      }
      var p := (claims.value.issuer, claims.value.subject);
      if p in identities && identities[p].user != user {
        return;
      }
      UpsertCloudIdentity(user, claims.value);
    }

    method UpsertCloudIdentity(user: nat, claims: Claims)
      modifies this`identities, this`nextOrder
      ensures Identities(identities, nextOrder) == old(Identities(identities, nextOrder)).Upsert(user, provider, claims)
    {
      var p := (claims.issuer, claims.subject);
      if p in identities {
        identities := identities[p := Identity(user, provider, claims.account, identities[p].order)];
      } else {
        identities := identities[p := Identity(user, provider, claims.account, nextOrder)];
        nextOrder := nextOrder + 1;
      }
    }

    method DisconnectCloud(now: int)
      modifies this
      ensures Abstract() == old(Abstract()).Step(Disconnect, now)
    {
      if hasLink {
        ResetLink(None);
        StatusPayload(now);
      }
    }

    method SetLocalFallback(enabled: bool, user: Option<nat>, verified: bool, now: int)
      modifies this
      ensures Abstract() == old(Abstract()).WithLocalFallback(enabled, user, verified, now)
    {
      if !hasLink {
        return;
      }
      if enabled {
        localFallback := true;
        StatusPayload(now);
        return;
      }
      if user.None? || status != Connected || AUTH_LOGIN !in scope {
        return;
      }
      if !Identities(identities, nextOrder).OwnedBy(user.value, provider, accountId) || !verified {
        return;
      }
      localFallback := false;
      StatusPayload(now);
    }

    method SetCloudFeatures(scopes: set<string>, readable: bool, reply: Reply, now: int)
      modifies this
      ensures Abstract() == old(Abstract()).WithFeatures(scopes, readable, reply, now)
    {
      if !hasLink || status != Connected || !readable || deviceCode.Some? {
        return;
      }
      var wanted := FeatureScopes(scopes);
      if reply.NetworkError? || reply.status != 200 {
        return;
      }
      if reply.outcome == "updated" {
        if reply.scope.Some? {
          scope := reply.scope.value;
        }
        if AUTH_LOGIN !in wanted || AUTH_LOGIN !in scope {
          localFallback := true;
        }
        pollError := None;
        StatusPayload(now);
      } else if reply.outcome == "approval_required" && reply.deviceCode != "" {
        deviceCode := Some(Secret(provider, reply.deviceCode));
        expiresAt := Expiry(now, reply.expiresIn);
        pollError := None;
        StatusPayload(now);
      }
    }

    method CancelCloudFeatures(now: int)
      modifies this
      ensures Abstract() == old(Abstract()).Step(CancelFeatures, now)
    {
      if hasLink && status == Connected && deviceCode.Some? {
        ClearUpgrade(None);
      }
      StatusPayload(now);
    }

    method LoginCallback(link: Option<nat>, readable: bool, claims: Option<Claims>, newUser: nat)
      modifies this
      ensures Abstract() == match link
                            case Some(user) => old(Abstract()).LinkedIdentity(user, readable, claims)
                            case None => old(Abstract()).LoggedIn(readable, claims, newUser)
    {
      if !hasLink || status != Connected || !readable || claims.None? ||
         claims.value.issuer == "" || claims.value.subject == "" {
        return;
      }
      if link.Some? {
        if link.value in users {
          ClaimIdentity(link.value, claims);
        }
        return;
      }
      var known := (claims.value.issuer, claims.value.subject) in identities
                   || Identities(identities, nextOrder).AccountKnown(claims.value.account, provider);
      if !known && users == {} {
        users := {newUser};
        UpsertCloudIdentity(newUser, claims.value);
      }
    }

    method CloudIdentityUnlink(user: Option<nat>, now: int)
      modifies this
      ensures Abstract() == old(Abstract()).Unlinked(user, now)
    {
      if user.None? {
        return;
      }
      if hasLink && status == Connected && !localFallback {
        return;
      }
      identities := map p | p in identities && identities[p].user != user.value :: identities[p];
      StatusPayload(now);
    }

    /** One grants sync of the worker: `_sync_link` with `_store_grants` and `_revoke_link_locally`. */
    method SyncLink(readable: bool, httpStatus: int, owner: Option<string>)
      modifies this
      ensures Abstract() == old(Abstract()).Synced(readable, httpStatus, owner)
    {
      if !hasLink || status != Connected || !readable {
        return;
      }
      if httpStatus == 401 {
        ResetLink(Some("revoked"));
      } else if httpStatus == 200 && owner.Some? {
        accountId := owner;
      }
    }
  }

  // ---- one request ------------------------------------------------------------------

  lemma CredentialsStayInOrder(s: State, req: Request, now: int)
    requires s.CredentialsInOrder()
    ensures s.Step(req, now).CredentialsInOrder()
  {
    hide State.Polled, State.StartedConnect, State.WithFeatures, State.UpdatedProvider;
    match req {
      case Poll(user, reply, owner) => PollKeepsOrder(s, user, reply, owner, now);
      case StartConnect(given, url, scopes, reply) => ConnectKeepsOrder(s, given, url, scopes, reply, now);
      case SetFeatures(scopes, readable, reply) => FeaturesKeepOrder(s, scopes, readable, reply, now);
      case UpdateProvider(url) => ProviderKeepsOrder(s, url, now);
      case _ =>
    }
  }

  lemma PollKeepsOrder(s: State, user: Option<nat>, reply: Reply, owner: Option<string>, now: int)
    requires s.CredentialsInOrder()
    ensures s.Polled(user, reply, owner, now).CredentialsInOrder()
  {
    hide Identities.Claim, ErrorOr, State.Refreshed, State.Approved, State.PolledUpgrade, State.CredentialsInOrder;
    if s.link.Some? && s.link.value.UpgradePending() {
      UpgradePollKeepsOrder(s, reply, now);
    } else if s.link.None? || s.link.value.status != Connecting || s.link.value.deviceCode.None? {
      RefreshKeepsOrder(s, now);
    } else {
      LinkPollKeepsOrder(s, reply, now);
      if reply.Http? {
        ApprovalKeepsOrder(s, user, reply, owner);
        RefreshKeepsOrder(s.Approved(user, reply, owner), now);
      }
    }
  }

  lemma RefreshKeepsOrder(s: State, now: int)
    requires s.CredentialsInOrder()
    ensures s.Refreshed(now).CredentialsInOrder()
  {}

  lemma UpgradePollKeepsOrder(s: State, reply: Reply, now: int)
    requires s.CredentialsInOrder() && s.link.Some? && s.link.value.UpgradePending()
    ensures s.PolledUpgrade(reply, now).CredentialsInOrder()
  {
    hide ErrorOr;
  }

  lemma ApprovalKeepsOrder(s: State, user: Option<nat>, reply: Reply, owner: Option<string>)
    requires s.CredentialsInOrder() && s.link.Some? && reply.Http?
    ensures s.Approved(user, reply, owner).CredentialsInOrder()
  {
    hide Identities.Claim;
  }

  /** The outcomes of a poll other than approval. */
  lemma LinkPollKeepsOrder(s: State, reply: Reply, now: int)
    requires s.CredentialsInOrder() && s.link.Some?
    ensures forall error :: s.With(s.link.value.(pollError := error)).Refreshed(now).CredentialsInOrder()
    ensures forall error :: s.With(s.link.value.Reset(error)).Refreshed(now).CredentialsInOrder()
  {
    hide State.Refreshed;
    forall error ensures s.With(s.link.value.(pollError := error)).Refreshed(now).CredentialsInOrder() {
      RefreshKeepsOrder(s.With(s.link.value.(pollError := error)), now);
    }
    forall error ensures s.With(s.link.value.Reset(error)).Refreshed(now).CredentialsInOrder() {
      RefreshKeepsOrder(s.With(s.link.value.Reset(error)), now);
    }
  }

  lemma ConnectKeepsOrder(s: State, given: bool, url: Option<string>, scopes: set<string>, reply: Reply, now: int)
    requires s.CredentialsInOrder()
    ensures s.StartedConnect(given, url, scopes, reply, now).CredentialsInOrder()
  {}

  lemma FeaturesKeepOrder(s: State, scopes: set<string>, readable: bool, reply: Reply, now: int)
    requires s.CredentialsInOrder()
    ensures s.WithFeatures(scopes, readable, reply, now).CredentialsInOrder()
  {}

  lemma ProviderKeepsOrder(s: State, url: Option<string>, now: int)
    requires s.CredentialsInOrder()
    ensures s.UpdatedProvider(url, now).CredentialsInOrder()
  {}

  lemma UpsertKeepsProvider(ids: Identities, user: nat, provider: string, c: Claims)
    ensures exists p | p in ids.Upsert(user, provider, c).rows ::
            ids.Upsert(user, provider, c).rows[p].provider == provider
  {
    var p := (c.issuer, c.subject);
    assert p in ids.Upsert(user, provider, c).rows && ids.Upsert(user, provider, c).rows[p].provider == provider;
  }

  lemma NoLockoutStays(s: State, req: Request, now: int)
    requires s.NoLockout() && s.CredentialsInOrder()
    ensures s.Step(req, now).NoLockout()
  {
    match req {
      case LinkIdentity(user, readable, claims) =>
        if s.LinkedIdentity(user, readable, claims).ids != s.ids {
          UpsertKeepsProvider(s.ids, user, s.link.value.provider, claims.value);
        }
      case Login(readable, claims, newUser) =>
        if s.LoggedIn(readable, claims, newUser).ids != s.ids {
          UpsertKeepsProvider(s.ids, newUser, s.link.value.provider, claims.value);
        }
      case SetLocalFallback(enabled, user, verified) =>
        if !enabled && s.link.Some? && user.Some? &&
           s.ids.OwnedBy(user.value, s.link.value.provider, s.link.value.accountId) {
          var p :| p in s.ids.rows && s.ids.rows[p].provider == s.link.value.provider;
        }
      case _ =>
    }
  }

  /** The login scope is lost with local login off exactly by an approved upgrade that drops it. */
  lemma LoginScopeStays(s: State, req: Request, now: int)
    requires s.LoginScopeHeld() && s.NoLockout() && s.CredentialsInOrder()
    ensures s.Step(req, now).LoginScopeHeld() <==> !s.DropsLogin(req)
  {}

  /** An identity changes hands only by being unlinked first: as long as its row is there, its
      user stays; and only its own user's unlinking removes it. */
  lemma OwnershipStays(s: State, req: Request, now: int, p: Principal)
    requires p in s.ids.rows
    ensures p in s.Step(req, now).ids.rows ==> s.Step(req, now).ids.rows[p].user == s.ids.rows[p].user
    ensures p !in s.Step(req, now).ids.rows ==> req == UnlinkIdentity(Some(s.ids.rows[p].user))
  {}

  // ---- runs -------------------------------------------------------------------------

  /** A request and the time it is handled at. */
  type Event = (Request, int)

  function Fresh(users: set<nat>, fallbackUrl: Option<string>): State {
    State(None, users, Identities(map[], 0), fallbackUrl)
  }

  function Run(s: State, events: seq<Event>): State {
    if events == [] then s else
      var e := events[|events| - 1];
      Run(s, events[..|events| - 1]).Step(e.0, e.1)
  }

  /** In every reachable state the stored credentials were issued by the current provider, the
      status says which there are, and nobody is locked out. */
  lemma {:induction false} ReachableStatesAreSafe(users: set<nat>, fallbackUrl: Option<string>, events: seq<Event>)
    ensures var s := Run(Fresh(users, fallbackUrl), events);
            s.CredentialsInOrder() && s.NoLockout()
  {
    if events != [] {
      var before := Run(Fresh(users, fallbackUrl), events[..|events| - 1]);
      var (req, now) := events[|events| - 1];
      ReachableStatesAreSafe(users, fallbackUrl, events[..|events| - 1]);
      CredentialsStayInOrder(before, req, now);
      NoLockoutStays(before, req, now);
    }
  }

  /** If approved upgrades never drop the login scope, local login is off only while the link may
      be used to log in. */
  lemma {:induction false} LoginScopeHeldWhileNeeded(users: set<nat>, fallbackUrl: Option<string>, events: seq<Event>)
    requires forall i | 0 <= i < |events| :: !Run(Fresh(users, fallbackUrl), events[..i]).DropsLogin(events[i].0)
    ensures Run(Fresh(users, fallbackUrl), events).LoginScopeHeld()
  {
    if events != [] {
      var front := events[..|events| - 1];
      assert forall i | 0 <= i < |front| :: front[..i] == events[..i] && front[i] == events[i];
      LoginScopeHeldWhileNeeded(users, fallbackUrl, front);
      ReachableStatesAreSafe(users, fallbackUrl, front);
      var (req, now) := events[|events| - 1];
      LoginScopeStays(Run(Fresh(users, fallbackUrl), front), req, now);
    }
  }

  /** Over any run an identity that stays linked stays with its user. */
  lemma {:induction false} OwnerKeptOverRuns(s: State, events: seq<Event>, p: Principal)
    requires p in s.ids.rows
    requires forall i | 0 <= i < |events| :: events[i].0 != UnlinkIdentity(Some(s.ids.rows[p].user))
    ensures p in Run(s, events).ids.rows && Run(s, events).ids.rows[p].user == s.ids.rows[p].user
  {
    if events != [] {
      OwnerKeptOverRuns(s, events[..|events| - 1], p);
      var (req, now) := events[|events| - 1];
      OwnershipStays(Run(s, events[..|events| - 1]), req, now, p);
    }
  }

  /** While a feature change waits for approval no request puts another one in its place: afterwards
      its device code is gone, or it and its expiry are the same and the link still waits for it. */
  lemma OneFeatureChangeAtATime(s: State, req: Request, now: int)
    requires s.CredentialsInOrder() && s.link.Some? && s.link.value.UpgradePending()
    ensures var before, after := s.link.value, s.Step(req, now).link;
            after.Some? &&
            (after.value.deviceCode.None? ||
             (after.value.deviceCode == before.deviceCode && after.value.expiresAt == before.expiresAt &&
              after.value.UpgradePending()))
  {}

  /** Over any run a pending feature change stays the pending one until its code is gone. */
  lemma {:induction false} PendingChangeStays(s: State, events: seq<Event>)
    requires s.CredentialsInOrder() && s.link.Some? && s.link.value.UpgradePending()
    requires forall i | 0 <= i < |events| ::
               Run(s, events[..i]).link.Some? ==> Run(s, events[..i]).link.value.deviceCode.Some?
    ensures var after := Run(s, events);
            after.CredentialsInOrder() && after.link.Some? &&
            (after.link.value.deviceCode.None? ||
             (after.link.value.deviceCode == s.link.value.deviceCode &&
              after.link.value.expiresAt == s.link.value.expiresAt && after.link.value.UpgradePending()))
  {
    hide State.Step, State.CredentialsInOrder;
    if events != [] {
      var n := |events| - 1;
      assert forall i | 0 <= i < n :: events[..n][..i] == events[..i];
      PendingChangeStays(s, events[..n]);
      CredentialsStayInOrder(Run(s, events[..n]), events[n].0, events[n].1);
      OneFeatureChangeAtATime(Run(s, events[..n]), events[n].0, events[n].1);
    }
  }

  /** Repointing and reconnecting never carry a credential over to another provider. */
  lemma ProviderChangeDropsCredentials(s: State, req: Request, now: int)
    requires s.CredentialsInOrder() && s.NoLockout() && s.link.Some?
    requires var s' := s.Step(req, now);
             s'.link.Some? && s'.link.value.provider != s.link.value.provider
    ensures var l := s.Step(req, now).link.value;
            l.accessToken.None? && l.localFallback && (l.deviceCode.Some? ==> l.status == Connecting)
  {}
}
