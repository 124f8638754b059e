/**
 What the requests to the cloud link bring about, told by outcome (backend/app/api/cloud.py:321-542,
 910-929, 932-1063, 1074-1258; backend/app/cloud/sync.py:151-253): for every state and request,
 exactly when the link connects, starts to wait or ends, what it may be used for, when local login
 goes off, and which users and identities there are.
 */
module CloudOutcomes {
  import opened CloudLink
  import opened Options

  predicate IsConnected(s: State) {
    s.link.Some? && s.link.value.status.Connected?
  }

  /** A grant waits for its approval. */
  predicate Waits(s: State) {
    s.link.Some? && s.link.value.status.Connecting? && s.link.value.deviceCode.Some?
  }

  /** A feature change of a live link waits for its approval. */
  predicate UpgradeWaits(s: State) {
    IsConnected(s) && s.link.value.deviceCode.Some?
  }

  /** The provider's answer to a poll that is not "try again later". */
  predicate Decides(reply: Reply) {
    reply.Http? && reply.error != "authorization_pending"
  }

  predicate Grants(reply: Reply) {
    Decides(reply) && reply.status == 200 && reply.accessToken != ""
  }

  predicate GrantsUpgrade(reply: Reply) {
    Decides(reply) && reply.status == 200 && reply.accessToken == "" && reply.scope.Some?
  }

  predicate LapsedAt(s: State, now: int) {
    s.link.Some? && s.link.value.expiresAt.Some? && s.link.value.expiresAt.value <= now
  }

  // ---- connecting -------------------------------------------------------------------

  /** A link that is not connected becomes so exactly when a waiting grant is polled and the provider
      hands out a token; it then holds this token and nothing of the grant. */
  lemma ConnectsExactlyWhenApproved(s: State, req: Request, now: int)
    requires !IsConnected(s)
    ensures IsConnected(s.Step(req, now)) <==> req.Poll? && Waits(s) && Grants(req.reply)
    ensures IsConnected(s.Step(req, now)) ==>
              var before, after := s.link.value, s.Step(req, now).link.value;
              after.provider == before.provider &&
              after.accessToken == Some(Secret(before.provider, req.reply.accessToken)) &&
              after.deviceCode.None? && after.expiresAt.None? && after.pollError.None? &&
              after.scope == (if req.reply.scope.Some? then req.reply.scope.value else before.scope) &&
              after.accountId == (if req.owner.Some? then req.owner else before.accountId) &&
              after.localFallback == before.localFallback
  {
    hide Identities.Claim, Identities.OwnedBy, ErrorOr, RequestedScopes;
  }

  /** A connected link ends exactly when it is disconnected or the provider has revoked it. */
  lemma EndsExactlyWhenRevoked(s: State, req: Request, now: int)
    requires IsConnected(s)
    ensures !IsConnected(s.Step(req, now)) <==>
            req.Disconnect? || (req.SyncGrants? && req.readable && req.status == 401)
    ensures !IsConnected(s.Step(req, now)) ==>
              s.Step(req, now).link == Some(Link(
                s.link.value.provider, Disconnected, None, None, None, {}, None, true,
                if req.Disconnect? then None else Some("revoked")))
  {
    SameOwnership(s, req);
    hide Identities.Claim, Identities.OwnedBy, NewestOwnsLink, ErrorOr, RequestedScopes, FeatureScopes;
  }

  /** Whom a new grant is asked of. */
  function GrantProvider(s: State, given: bool, url: Option<string>): Option<string> {
    if given then url else if s.link.Some? then Some(s.link.value.provider) else s.fallbackUrl
  }

  predicate StartsGrant(s: State, req: Request) {
    req.StartConnect? && !IsConnected(s) && GrantProvider(s, req.given, req.url).Some? &&
    req.reply.Http? && req.reply.status == 200 && req.reply.deviceCode != ""
  }

  /** A grant starts exactly when the provider that is asked hands out a device code. */
  lemma GrantStartsExactly(s: State, req: Request, now: int)
    requires StartsGrant(s, req)
    ensures Waits(s.Step(req, now))
    ensures var link := s.Step(req, now).link.value;
            var provider := GrantProvider(s, req.given, req.url).value;
            link.provider == provider && link.deviceCode == Some(Secret(provider, req.reply.deviceCode)) &&
            link.expiresAt == (if req.reply.expiresIn > 0 then Some(now + req.reply.expiresIn) else None) &&
            link.accessToken.None? && link.accountId.None? && link.localFallback && link.pollError.None? &&
            link.scope == RequestedScopes(req.scopes)
  {
    hide RequestedScopes;
  }

  /** What a grant asks for: of the scopes asked for those that are known, or a fixed set if none is. */
  lemma RequestedScopesAre(scopes: set<string>)
    ensures RequestedScopes(scopes) ==
            if exists scope :: scope in scopes && scope in KNOWN_SCOPES then scopes * KNOWN_SCOPES
            else {"backend:link", "backend:read", "backup:scenes", "backup:frames", "store:publish"}
  {
    var fixed := {"backend:link", "backend:read", "backup:scenes", "backup:frames", "store:publish"};
    assert DEFAULT_SCOPES == fixed && fixed * KNOWN_SCOPES == fixed;
    hide *;
    if scope :| scope in scopes && scope in KNOWN_SCOPES {
      assert scope in scopes * KNOWN_SCOPES;
      RequestedKnown(scopes);
    } else {
      assert scopes * KNOWN_SCOPES == {};
      RequestedNone(scopes);
    }
  }

  lemma RequestedKnown(scopes: set<string>)
    requires scopes * KNOWN_SCOPES != {}
    ensures RequestedScopes(scopes) == scopes * KNOWN_SCOPES
  {
    assert scopes != {};
  }

  lemma RequestedNone(scopes: set<string>)
    requires scopes * KNOWN_SCOPES == {}
    ensures RequestedScopes(scopes) == DEFAULT_SCOPES
  {
    assert DEFAULT_SCOPES * KNOWN_SCOPES == DEFAULT_SCOPES;
  }

  /** The grant that waits after another request is the one that waited before. */
  lemma OnlyOneWayToWait(s: State, req: Request, now: int)
    requires !StartsGrant(s, req) && Waits(s.Step(req, now))
    ensures Waits(s)
    ensures var before, after := s.link.value, s.Step(req, now).link.value;
            after.provider == before.provider && after.deviceCode == before.deviceCode &&
            after.expiresAt == before.expiresAt && after.scope == before.scope
  {
    SameOwnership(s, req);
    hide Identities.Claim, Identities.OwnedBy, NewestOwnsLink, ErrorOr, RequestedScopes, FeatureScopes;
  }

  /** The requests that look at the clock. */
  predicate LooksAtClock(s: State, req: Request) {
    req.GetStatus? || req.Poll? || req.CancelFeatures? ||
    (req.SetLocalFallback? && (req.enabled || SwitchesOff(s, req))) ||
    (req.UnlinkIdentity? && req.user.Some? && !(IsConnected(s) && !s.link.value.localFallback))
  }

  /** A waiting grant is over without success exactly when it is called off, the provider decides
      otherwise, or its time is up when a request looks at the clock. */
  lemma WaitingEndsExactly(s: State, req: Request, now: int)
    requires Waits(s) && !StartsGrant(s, req)
    ensures var after := s.Step(req, now);
            after.link.Some? &&
            (after.link.value.status.Disconnected? <==>
             req.Disconnect? ||
             (req.Poll? && Decides(req.reply) && !Grants(req.reply)) ||
             (LapsedAt(s, now) && !(req.Poll? && Grants(req.reply)) &&
              (LooksAtClock(s, req) || (req.UpdateProvider? && req.url.Some?))))
    ensures var after := s.Step(req, now).link.value;
            after.status.Disconnected? ==>
              after.deviceCode.None? && after.expiresAt.None? && after.accessToken.None? && after.scope == {} &&
              after.accountId.None? && after.localFallback
  {
    SameOwnership(s, req);
    hide Identities.Claim, Identities.OwnedBy, NewestOwnsLink, ErrorOr, RequestedScopes, FeatureScopes;
  }

  /** What a poll of a waiting grant reports: trouble on the way, nothing yet, or the refusal. */
  lemma PollReports(s: State, req: Request, now: int)
    requires Waits(s) && req.Poll? && !Grants(req.reply)
    ensures s.Step(req, now).link.value.pollError ==
            if req.reply.Http? && Decides(req.reply) then
              Some(if req.reply.error != "" then req.reply.error else "unexpected status")
            else if LapsedAt(s, now) then Some("expired")
            else if req.reply.NetworkError? then Some("network_error")
            else None
    ensures !Decides(req.reply) && !LapsedAt(s, now) ==>
              s.Step(req, now).link.value == s.link.value.(pollError := s.Step(req, now).link.value.pollError)
  {}

  /** What a poll for a feature change reports; the link stays connected whatever the answer. */
  lemma UpgradePollReports(s: State, req: Request, now: int)
    requires UpgradeWaits(s) && req.Poll?
    ensures IsConnected(s.Step(req, now))
    ensures s.Step(req, now).link.value.pollError ==
            if GrantsUpgrade(req.reply) then None
            else if req.reply.Http? && Decides(req.reply) then
              Some(if req.reply.error != "" then req.reply.error else "unexpected status")
            else if LapsedAt(s, now) then Some("expired")
            else if req.reply.NetworkError? then Some("network_error")
            else None
  {}

  /** The provider may be edited while no credential of it is held or waited for. */
  predicate Editable(s: State, now: int) {
    s.link.None? || s.link.value.status.Disconnected? ||
    (s.link.value.status.Connecting? && (LapsedAt(s, now) || s.link.value.deviceCode.None?))
  }

  /** Which provider the link is to, if there is a link, after any request. */
  lemma ProviderIs(s: State, req: Request, now: int)
    ensures s.Step(req, now).link.Some? <==>
            s.link.Some? || StartsGrant(s, req) || (req.UpdateProvider? && req.url.Some?)
    ensures s.Step(req, now).link.Some? ==>
              s.Step(req, now).link.value.provider ==
              if StartsGrant(s, req) then GrantProvider(s, req.given, req.url).value
              else if req.UpdateProvider? && req.url.Some? && Editable(s, now) then req.url.value
              else s.link.value.provider
  {
    hide Identities.Claim, Identities.OwnedBy, ErrorOr, RequestedScopes, FeatureScopes;
  }

  // ---- a grant over a run -----------------------------------------------------------

  /** Polls that the provider answers with "try again later", or does not answer. */
  ghost predicate Undecided(events: seq<Event>, deadline: Option<int>) {
    forall i | 0 <= i < |events| ::
      events[i].0.Poll? && !Decides(events[i].0.reply) && (deadline.None? || events[i].1 < deadline.value)
  }

  lemma {:induction false} WaitingGoesOn(s: State, events: seq<Event>)
    requires Waits(s) && Undecided(events, s.link.value.expiresAt)
    ensures var after := Run(s, events);
            after.link.Some? && after.link.value == s.link.value.(pollError := after.link.value.pollError)
  {
    hide State.Step;
    if events != [] {
      var n := |events| - 1;
      WaitingGoesOn(s, events[..n]);
      PollReports(Run(s, events[..n]), events[n].0, events[n].1);
      StillThere(Run(s, events[..n]), events[n].0, events[n].1);
    }
  }

  lemma StillThere(s: State, req: Request, now: int)
    requires s.link.Some?
    ensures s.Step(req, now).link.Some?
  {
    SameOwnership(s, req);
    hide Identities.Claim, Identities.OwnedBy, NewestOwnsLink, ErrorOr, RequestedScopes, FeatureScopes;
  }

  /** From any install that is not connected: a started grant, polled however often before its time is
      up, connects as soon as the provider hands out the token, with the scope and owner it names. */
  lemma GrantConnects(s: State, start: Event, polls: seq<Event>, last: Event)
    requires StartsGrant(s, start.0)
    requires Undecided(polls, Expiry(start.1, start.0.reply.expiresIn))
    requires last.0.Poll? && Grants(last.0.reply)
    ensures var provider := GrantProvider(s, start.0.given, start.0.url).value;
            var after := Run(s, [start] + polls + [last]);
            IsConnected(after) && after.link.value.provider == provider &&
            after.link.value.accessToken == Some(Secret(provider, last.0.reply.accessToken)) &&
            after.link.value.deviceCode.None? && after.link.value.localFallback &&
            after.link.value.scope ==
              (if last.0.reply.scope.Some? then last.0.reply.scope.value else RequestedScopes(start.0.scopes)) &&
            after.link.value.accountId == last.0.owner
  {
    hide State.Step, RequestedScopes;
    var waiting := s.Step(start.0, start.1);
    GrantStartsExactly(s, start.0, start.1);
    WaitingGoesOn(waiting, polls);
    RunAfter(s, start, polls);
    var before := Run(s, [start] + polls);
    ConnectsExactlyWhenApproved(before, last.0, last.1);
    assert ([start] + polls + [last])[..|polls| + 1] == [start] + polls;
  }

  lemma {:induction false} RunAfter(s: State, first: Event, events: seq<Event>)
    ensures Run(s, [first] + events) == Run(s.Step(first.0, first.1), events)
  {
    hide State.Step;
    var all := [first] + events;
    if events == [] {
      assert all[..0] == [];
      assert Run(s, all[..0]) == s;
    } else {
      RunAfter(s, first, events[..|events| - 1]);
      assert all[..|all| - 1] == [first] + events[..|events| - 1];
    }
  }

  // ---- what the link may be used for ------------------------------------------------

  /** The provider applied a feature change at once. */
  predicate FeaturesUpdated(s: State, req: Request) {
    req.SetFeatures? && IsConnected(s) && !UpgradeWaits(s) && req.readable && req.reply.Http? &&
    req.reply.status == 200 && req.reply.outcome == "updated"
  }

  predicate FeaturesNeedApproval(s: State, req: Request) {
    req.SetFeatures? && IsConnected(s) && !UpgradeWaits(s) && req.readable && req.reply.Http? &&
    req.reply.status == 200 && req.reply.outcome == "approval_required" && req.reply.deviceCode != ""
  }

  /** A connected link's scope is what the provider said last: in a feature change that it applied or,
      when an upgrade was polled for, approved. Nothing else touches it, nor the token. */
  lemma ScopeIsAsGranted(s: State, req: Request, now: int)
    requires IsConnected(s) && IsConnected(s.Step(req, now))
    ensures s.Step(req, now).link.value.scope ==
            if req.Poll? && UpgradeWaits(s) && GrantsUpgrade(req.reply) then req.reply.scope.value
            else if FeaturesUpdated(s, req) && req.reply.scope.Some? then req.reply.scope.value
            else s.link.value.scope
    ensures s.Step(req, now).link.value.accessToken == s.link.value.accessToken
    ensures s.Step(req, now).link.value.provider == s.link.value.provider
    ensures s.Step(req, now).link.value.accountId ==
            if req.SyncGrants? && req.readable && req.status == 200 && req.owner.Some? then req.owner
            else s.link.value.accountId
  {
    SameOwnership(s, req);
    hide Identities.Claim, Identities.OwnedBy, NewestOwnsLink, ErrorOr, RequestedScopes, FeatureScopes;
  }

  /** A feature change starts to wait exactly when the provider wants it approved, and waits until it
      is decided, called off, or out of time when a request looks at the clock. */
  lemma UpgradeWaitsExactly(s: State, req: Request, now: int)
    requires IsConnected(s) && IsConnected(s.Step(req, now))
    ensures var code := s.Step(req, now).link.value.deviceCode;
            code ==
            if FeaturesNeedApproval(s, req) then Some(Secret(s.link.value.provider, req.reply.deviceCode))
            else if req.CancelFeatures? || (req.Poll? && Decides(req.reply)) ||
                    (LooksAtClock(s, req) && LapsedAt(s, now)) then None
            else s.link.value.deviceCode
    ensures FeaturesNeedApproval(s, req) ==>
              s.Step(req, now).link.value.expiresAt ==
              if req.reply.expiresIn > 0 then Some(now + req.reply.expiresIn) else None
  {
    SameOwnership(s, req);
    hide Identities.Claim, Identities.OwnedBy, NewestOwnsLink, ErrorOr, RequestedScopes, FeatureScopes;
  }

  // ---- local login ------------------------------------------------------------------

  /** The newest of the user's identities at the link's provider is the account that owns the link. */
  predicate NewestOwnsLink(s: State, user: nat)
    requires s.link.Some?
  {
    var owner := s.link.value.accountId;
    owner.Some? && owner.value != "" &&
    exists p | p in s.ids.rows ::
      s.ids.rows[p].user == user && s.ids.rows[p].provider == s.link.value.provider && s.ids.rows[p].account == owner &&
      !exists q | q in s.ids.rows ::
        s.ids.rows[q].user == user && s.ids.rows[q].provider == s.link.value.provider &&
        s.ids.rows[q].order > s.ids.rows[p].order
  }

  lemma OwnedByNewest(s: State, user: nat)
    requires s.link.Some?
    ensures s.ids.OwnedBy(user, s.link.value.provider, s.link.value.accountId) <==> NewestOwnsLink(s, user)
  {
    if s.ids.OwnedBy(user, s.link.value.provider, s.link.value.accountId) {
      var p :| p in s.ids.rows && s.ids.rows[p].user == user && s.ids.rows[p].provider == s.link.value.provider &&
        s.ids.rows[p].account == s.link.value.accountId &&
        forall q | q in s.ids.rows && s.ids.rows[q].user == user && s.ids.rows[q].provider == s.link.value.provider ::
          s.ids.rows[q].order <= s.ids.rows[p].order;
    }
  }

  /** Local login may be switched off: by a logged-in user who has just proved that the newest of
      their identities at the provider is the account that owns the link. */
  predicate SwitchesOff(s: State, req: Request) {
    req.SetLocalFallback? && !req.enabled && IsConnected(s) && "auth:login" in s.link.value.scope &&
    req.user.Some? && NewestOwnsLink(s, req.user.value) && req.verified
  }

  lemma SameOwnership(s: State, req: Request)
    ensures req.SetLocalFallback? && req.user.Some? && s.link.Some? ==>
              (s.ids.OwnedBy(req.user.value, s.link.value.provider, s.link.value.accountId) <==>
               NewestOwnsLink(s, req.user.value))
  {
    if req.SetLocalFallback? && req.user.Some? && s.link.Some? { OwnedByNewest(s, req.user.value); }
  }

  /** Local login comes back: on demand, with the end of the link, and with a feature change that does
      not both ask for the login and get it. */
  predicate SwitchesOn(s: State, req: Request) {
    req.Disconnect? || (req.SetLocalFallback? && req.enabled) ||
    (req.SyncGrants? && req.readable && req.status == 401) ||
    (FeaturesUpdated(s, req) &&
     !("auth:login" in req.scopes &&
       "auth:login" in if req.reply.scope.Some? then req.reply.scope.value else s.link.value.scope))
  }

  lemma LocalLoginIsOffExactly(s: State, req: Request, now: int)
    requires s.NoLockout() && s.CredentialsInOrder()
    ensures var after := s.Step(req, now);
            after.link.Some? && !after.link.value.localFallback <==>
            SwitchesOff(s, req) || (s.link.Some? && !s.link.value.localFallback && !SwitchesOn(s, req))
  {
    SameOwnership(s, req);
    hide Identities.Claim, Identities.OwnedBy, NewestOwnsLink, ErrorOr, RequestedScopes;
    LoginWanted(if req.SetFeatures? then req.scopes else {});
    hide FeatureScopes;
  }

  lemma LoginWanted(scopes: set<string>)
    ensures "auth:login" in FeatureScopes(scopes) <==> "auth:login" in scopes
  {}

  // ---- users and identities ---------------------------------------------------------

  predicate Named(claims: Option<Claims>) {
    claims.Some? && claims.value.issuer != "" && claims.value.subject != ""
  }

  function PrincipalOf(claims: Claims): Principal {
    (claims.issuer, claims.subject)
  }

  predicate FreeFor(s: State, user: nat, p: Principal) {
    p !in s.ids.rows || s.ids.rows[p].user == user
  }

  /** The very first user may come from the cloud. */
  predicate CreatesUser(s: State, req: Request) {
    req.Login? && IsConnected(s) && req.readable && Named(req.claims) && s.users == {} &&
    PrincipalOf(req.claims.value) !in s.ids.rows &&
    !exists p | p in s.ids.rows ::
      s.ids.rows[p].account == req.claims.value.account && s.ids.rows[p].provider == s.link.value.provider &&
      req.claims.value.account.Some? && req.claims.value.account.value != ""
  }

  lemma UsersChangeExactly(s: State, req: Request, now: int)
    ensures s.Step(req, now).users == if CreatesUser(s, req) then {req.newUser} else s.users
  {
    hide Identities.Claim, Identities.OwnedBy, ErrorOr, RequestedScopes, FeatureScopes, State.Refreshed, Link.Reset;
    RefreshingKeepsPeople();
  }

  lemma RefreshingKeepsPeople()
    ensures forall s: State, now :: s.Refreshed(now).users == s.users && s.Refreshed(now).ids == s.ids
  {}

  /** Whose identity a request records, if it does: of the new user, of a user who links it, or of the
      approver of a grant; nobody's identity goes to somebody else. */
  function RecordedFor(s: State, req: Request): Option<(nat, Claims)> {
    if CreatesUser(s, req) then Some((req.newUser, req.claims.value))
    else if req.LinkIdentity? && IsConnected(s) && req.readable && req.userId in s.users && Named(req.claims) &&
            FreeFor(s, req.userId, PrincipalOf(req.claims.value)) then Some((req.userId, req.claims.value))
    else if req.Poll? && Waits(s) && Grants(req.reply) && req.user.Some? && Named(req.reply.approvedBy) &&
            FreeFor(s, req.user.value, PrincipalOf(req.reply.approvedBy.value)) then
      Some((req.user.value, req.reply.approvedBy.value))
    else None
  }

  /** Unlinking takes exactly the user's own rows, and none while they are needed to log in. */
  predicate Unlinks(s: State, req: Request, user: nat) {
    req.UnlinkIdentity? && req.user == Some(user) && !(IsConnected(s) && !s.link.value.localFallback)
  }

  /** Row by row, which identities there are after a request. */
  lemma IdentitiesChangeExactly(s: State, req: Request, now: int, p: Principal)
    ensures var recorded, after := RecordedFor(s, req), s.Step(req, now).ids.rows;
            if recorded.Some? && PrincipalOf(recorded.value.1) == p then
              p in after && after[p].user == recorded.value.0 && after[p].provider == s.link.value.provider &&
              after[p].account == recorded.value.1.account &&
              after[p].order == (if p in s.ids.rows then s.ids.rows[p].order else s.ids.next)
            else
              (p in after <==> p in s.ids.rows && !Unlinks(s, req, s.ids.rows[p].user)) &&
              (p in after ==> after[p] == s.ids.rows[p])
  {
    hide Identities.OwnedBy, ErrorOr, RequestedScopes, FeatureScopes, State.Refreshed, Link.Reset;
    RefreshingKeepsPeople();
  }
}
