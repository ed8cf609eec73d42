/**
 Room authorization: roles, capabilities, bans and the signed, sequence-numbered
 moderation log (src/authorization.rs).

 The evaluation of an event is pure; `AuthorizationState` is the object whose
 fields an accepted event rewrites.  Hashing and signatures are parameters.
 */
module Authorization {
  import opened Basics

  type PublicKey = nat
  type TopicId = nat
  type EventId = nat

  const AUTHORIZATION_VERSION: nat := 1

  type u64 = x: nat | x <= U64_MAX

  datatype Permission =
    | SendMessages | PinMessages | ScreenShare | ManageRoom | Invite | Kick | Ban | ManageRoles

  datatype Role = Guest | Member | Moderator | Owner {
    function DefaultPermissions(): set<Permission> {
      match this
      case Owner => {SendMessages, PinMessages, ScreenShare, ManageRoom, Invite, Kick, Permission.Ban, ManageRoles}
      case Moderator => {SendMessages, PinMessages, ScreenShare, Invite, Kick, Permission.Ban}
      case Member => {SendMessages, PinMessages, ScreenShare}
      case Guest => {SendMessages}
    }

    function Authority(): nat {
      match this
      case Guest => 0
      case Member => 1
      case Moderator => 2
      case Owner => 3
    }
  }

  datatype Action =
    | Grant(permission: Permission)
    | Revoke(permission: Permission)
    | ChangeRole(role: Role)
    | BanPeer
    | Unban
    | Admit(role: Role)

  datatype Event = Event(
    version: nat, groupId: TopicId, eventId: EventId, sequence: u64,
    actor: PublicKey, target: PublicKey, action: Action, signature: nat)

  datatype Error =
    | UnsupportedVersion(version: nat)
    | WrongGroup
    | InvalidSignature
    | EventIdMismatch
    | Replay
    | OutOfOrder(expectedAfter: u64, actual: u64)
    | UnknownActor
    | UnknownTarget
    | Banned
    | PermissionDenied
    | OwnerSafety
    | InvalidTransition
    | Decode

  datatype Outcome = Ok | Err(error: Error)

  /** What checking a signature can answer: the signed bytes may not even encode. */
  datatype SignatureCheck = Unencodable | Forged | Genuine

  /** The hash that derives an event id, and signature verification under the actor's key. */
  datatype Crypto = Crypto(
    deriveId: (TopicId, u64, PublicKey, PublicKey, Action) -> Option<EventId>,
    checkSignature: Event -> SignatureCheck)

  datatype Policy = Policy(
    groupId: TopicId,
    owner: PublicKey,
    members: map<PublicKey, Role>,
    permissions: map<PublicKey, set<Permission>>,
    banned: set<PublicKey>,
    lastSequence: u64,
    appliedEvents: set<EventId>)

  // ------------------------------------------------------------------
  // Pure evaluation
  // ------------------------------------------------------------------

  function NewRoom(groupId: TopicId, owner: PublicKey): Policy {
    Policy(groupId, owner, map[owner := Role.Owner], map[owner := Role.Owner.DefaultPermissions()], {}, 0, {})
  }

  function OwnersOf(members: map<PublicKey, Role>): set<PublicKey> {
    set k | k in members && members[k] == Role.Owner
  }

  function Validate(p: Policy): Outcome {
    var keysMatch :=
      && (forall k | k in p.members :: k in p.permissions)
      && (forall k | k in p.permissions :: k in p.members);
    if p.owner !in p.members || p.members[p.owner] != Role.Owner
       || |OwnersOf(p.members)| != 1
       || p.owner in p.banned
       || !keysMatch
    then Err(InvalidTransition)
    else Ok
  }

  function Verify(c: Crypto, p: Policy, e: Event): Outcome {
    if e.version != AUTHORIZATION_VERSION then Err(UnsupportedVersion(e.version))
    else if e.groupId != p.groupId then Err(WrongGroup)
    else if e.eventId in p.appliedEvents then Err(Replay)
    else if e.sequence != SaturatingSucc(p.lastSequence, U64_MAX) then Err(OutOfOrder(p.lastSequence, e.sequence))
    else match c.deriveId(e.groupId, e.sequence, e.actor, e.target, e.action)
      case None => Err(Decode)
      case Some(expected) =>
        if e.eventId != expected then Err(EventIdMismatch)
        else match c.checkSignature(e)
          case Unencodable => Err(Decode)
          case Forged => Err(InvalidSignature)
          case Genuine => Ok
  }

  /** The strict-hierarchy test: the target is a known non-owner of lower authority than the actor. */
  predicate ManagesTarget(p: Policy, actorRole: Role, target: PublicKey) {
    target in p.members && target != p.owner && actorRole.Authority() > p.members[target].Authority()
  }

  predicate Allowed(p: Policy, actorRole: Role, target: PublicKey, action: Action) {
    match action
    case Grant(permission) => ManagesTarget(p, actorRole, target) && MayDelegate(actorRole, permission)
    case Revoke(permission) => ManagesTarget(p, actorRole, target) && MayDelegate(actorRole, permission)
    case ChangeRole(role) => actorRole == Role.Owner && role != Role.Owner && ManagesTarget(p, actorRole, target)
    case BanPeer => ManagesTarget(p, actorRole, target) && (actorRole == Role.Owner || actorRole == Moderator)
    case Unban => ManagesTarget(p, actorRole, target) && (actorRole == Role.Owner || actorRole == Moderator)
                  && target in p.banned
    case Admit(role) => actorRole == Role.Owner && target !in p.members && role != Role.Owner && target !in p.banned
  }

  predicate MayDelegate(actorRole: Role, permission: Permission) {
    match actorRole
    case Owner => true
    case Moderator => permission in {PinMessages, Invite, Kick, Permission.Ban}
    case _ => false
  }

  function Evaluate(c: Crypto, p: Policy, e: Event): Outcome {
    var valid := Validate(p);
    if valid.Err? then valid else
    var verified := Verify(c, p, e);
    if verified.Err? then verified else
    if e.actor !in p.members then Err(UnknownActor) else
    if e.actor in p.banned then Err(Banned) else
    if e.target in p.banned && !e.action.Unban? then Err(Banned) else
    if Allowed(p, p.members[e.actor], e.target, e.action) then Ok
    else if e.target == p.owner || e.action == ChangeRole(Role.Owner) then Err(OwnerSafety)
    else if e.target !in p.members then Err(UnknownTarget)
    else Err(PermissionDenied)
  }

  /** A capability check at the enforcement boundary. */
  predicate Allows(p: Policy, peer: PublicKey, permission: Permission) {
    peer in p.members && peer !in p.banned && peer in p.permissions && permission in p.permissions[peer]
  }

  function PermissionsOf(p: Policy, peer: PublicKey): set<Permission> {
    if peer in p.permissions then p.permissions[peer] else {}
  }

  /** The state the event asks for, before any check. */
  function Mutated(p: Policy, e: Event): Policy {
    var q := match e.action
      case Grant(x) => p.(permissions := p.permissions[e.target := PermissionsOf(p, e.target) + {x}])
      case Revoke(x) => p.(permissions := p.permissions[e.target := PermissionsOf(p, e.target) - {x}])
      case ChangeRole(role) => WithRole(p, e.target, role)
      case Admit(role) => WithRole(p, e.target, role)
      case BanPeer => p.(banned := p.banned + {e.target})
      case Unban => p.(banned := p.banned - {e.target});
    q.(lastSequence := e.sequence, appliedEvents := p.appliedEvents + {e.eventId})
  }

  function WithRole(p: Policy, peer: PublicKey, role: Role): Policy {
    p.(members := p.members[peer := role], permissions := p.permissions[peer := role.DefaultPermissions()])
  }

  predicate MayAdmitMember(p: Policy, peer: PublicKey, role: Role) {
    peer !in p.banned && peer !in p.members && role != Role.Owner
  }

  // ------------------------------------------------------------------
  // Atomicity
  // ------------------------------------------------------------------

  /** `Validate` unfolded: the owner is the only Owner, unbanned, and the two maps have the same keys. */
  ghost predicate WellFormed(p: Policy) {
    && p.owner in p.members && p.members[p.owner] == Role.Owner
    && (forall k | k in p.members && k != p.owner :: p.members[k] != Role.Owner)
    && p.owner !in p.banned
    && p.members.Keys == p.permissions.Keys
  }

  lemma {:induction false} ValidateIffWellFormed(p: Policy)
    ensures Validate(p).Ok? <==> WellFormed(p)
  {
    var owners := OwnersOf(p.members);
    if WellFormed(p) {
      assert owners == {p.owner};
    }
    if Validate(p).Ok? {
      assert p.owner in owners;
      assert |owners - {p.owner}| == 0;
      assert forall k | k in p.members && k != p.owner :: k !in owners - {p.owner};
    }
  }

  /** Once evaluation succeeds the closing validation cannot fail. */
  lemma {:induction false} ClosingValidationSucceeds(c: Crypto, p: Policy, e: Event)
    requires Evaluate(c, p, e).Ok?
    ensures Validate(Mutated(p, e)).Ok?
  {
    ValidateIffWellFormed(p);
    ValidateIffWellFormed(Mutated(p, e));
  }

  /** The mutable room state; each accepted event or bootstrap admission rewrites its fields. */
  class AuthorizationState {
    const groupId: TopicId
    const owner: PublicKey
    var members: map<PublicKey, Role>
    var permissions: map<PublicKey, set<Permission>>
    var banned: set<PublicKey>
    var lastSequence: u64
    var appliedEvents: set<EventId>

    function View(): Policy
      reads this
    {
      Policy(groupId, owner, members, permissions, banned, lastSequence, appliedEvents)
    }

    constructor (groupId: TopicId, owner: PublicKey)
      ensures View() == NewRoom(groupId, owner)
      ensures Validate(View()).Ok?
    {
      this.groupId := groupId;
      this.owner := owner;
      members := map[owner := Role.Owner];
      permissions := map[owner := Role.Owner.DefaultPermissions()];
      banned := {};
      lastSequence := 0;
      appliedEvents := {};
      new;
      ValidateIffWellFormed(View());
    }

    /** Apply a signed event: it takes effect as a whole, or the state is untouched. */
    method Apply(c: Crypto, e: Event) returns (r: Outcome)
      modifies this
      ensures r == Evaluate(c, old(View()), e)
      ensures r.Ok? ==> View() == Mutated(old(View()), e) && Validate(View()).Ok?
      ensures r.Err? ==> View() == old(View())
    {
      r := Evaluate(c, View(), e);
      if r.Err? {
        return;
      }
      ClosingValidationSucceeds(c, View(), e);
      match e.action {
        case Grant(x) =>
          permissions := permissions[e.target := PermissionsOf(View(), e.target) + {x}];
        case Revoke(x) =>
          permissions := permissions[e.target := PermissionsOf(View(), e.target) - {x}];
        case ChangeRole(role) =>
          members := members[e.target := role];
          permissions := permissions[e.target := role.DefaultPermissions()];
        case Admit(role) =>
          members := members[e.target := role];
          permissions := permissions[e.target := role.DefaultPermissions()];
        case BanPeer =>
          banned := banned + {e.target};
        case Unban =>
          banned := banned - {e.target};
      }
      lastSequence := e.sequence;
      appliedEvents := appliedEvents + {e.eventId};
      r := Validate(View());
    }

    /** The bootstrap boundary: admit an unknown, unbanned, non-owner peer. */
    method AdmitMember(peer: PublicKey, role: Role) returns (r: Outcome)
      modifies this
      ensures r.Ok? <==> MayAdmitMember(old(View()), peer, role)
      ensures r.Ok? ==> View() == WithRole(old(View()), peer, role)
      ensures r.Err? ==> View() == old(View()) && r.error == InvalidTransition
    {
      if peer in banned || peer in members || role == Role.Owner {
        return Err(InvalidTransition);
      }
      members := members[peer := role];
      permissions := permissions[peer := role.DefaultPermissions()];
      r := Ok;
    }
  }

  // ------------------------------------------------------------------
  // Runs
  // ------------------------------------------------------------------

  datatype Op = Deliver(event: Event) | Bootstrap(peer: PublicKey, role: Role)

  predicate Accepts(c: Crypto, p: Policy, op: Op) {
    match op
    case Deliver(e) => Evaluate(c, p, e).Ok?
    case Bootstrap(peer, role) => MayAdmitMember(p, peer, role)
  }

  function Step(c: Crypto, p: Policy, op: Op): Policy {
    if !Accepts(c, p, op) then p
    else match op
      case Deliver(e) => Mutated(p, e)
      case Bootstrap(peer, role) => WithRole(p, peer, role)
  }

  function Run(c: Crypto, p: Policy, ops: seq<Op>): Policy {
    if ops == [] then p else Step(c, Run(c, p, ops[..|ops| - 1]), ops[|ops| - 1])
  }

  /** Operation `i` of the run was accepted. */
  ghost predicate AcceptedAt(c: Crypto, p: Policy, ops: seq<Op>, i: nat)
    requires i < |ops|
  {
    Accepts(c, Run(c, p, ops[..i]), ops[i])
  }

  /** Exactly one Owner, with all eight permissions and never banned. */
  ghost predicate Sound(p: Policy) {
    WellFormed(p) && forall x: Permission :: x in p.permissions[p.owner]
  }

  lemma OwnerHoldsEverything(x: Permission)
    ensures x in Role.Owner.DefaultPermissions()
  {
  }

  lemma StepKeepsSound(c: Crypto, p: Policy, op: Op)
    requires Sound(p)
    ensures Sound(Step(c, p, op))
    ensures Step(c, p, op).owner == p.owner && Step(c, p, op).groupId == p.groupId
  {
  }

  /** Every reachable room has exactly one Owner, holding all eight permissions and never banned. */
  lemma {:induction false} ReachableSound(c: Crypto, groupId: TopicId, owner: PublicKey, ops: seq<Op>)
    ensures var p := Run(c, NewRoom(groupId, owner), ops);
      Sound(p) && p.owner == owner && p.groupId == groupId && Validate(p).Ok?
      && forall x: Permission :: Allows(p, owner, x)
  {
    var p := Run(c, NewRoom(groupId, owner), ops);
    forall x: Permission ensures x in Role.Owner.DefaultPermissions() { OwnerHoldsEverything(x); }
    if ops != [] {
      ReachableSound(c, groupId, owner, ops[..|ops| - 1]);
      StepKeepsSound(c, Run(c, NewRoom(groupId, owner), ops[..|ops| - 1]), ops[|ops| - 1]);
    }
    ValidateIffWellFormed(p);
  }

  // ------------------------------------------------------------------
  // Who may do what, and what it does
  // ------------------------------------------------------------------

  /** The event is of this version and group, new, next in line, and signed by its actor under its own id. */
  ghost predicate Authentic(c: Crypto, p: Policy, e: Event) {
    && e.version == 1 && e.groupId == p.groupId && e.eventId !in p.appliedEvents
    && e.sequence == Min(p.lastSequence + 1, U64_MAX)
    && c.deriveId(e.groupId, e.sequence, e.actor, e.target, e.action) == Some(e.eventId)
    && c.checkSignature(e) == SignatureCheck.Genuine
  }

  /** The owner over everybody else, a moderator over guests and members, nobody over anyone otherwise. */
  predicate Over(p: Policy, actor: PublicKey, target: PublicKey) {
    && actor in p.members && target in p.members && target != p.owner
    && (actor == p.owner || (p.members[actor] == Moderator && p.members[target] in {Guest, Member}))
  }

  /** The table of permitted events of a well-formed room. */
  predicate Permitted(p: Policy, e: Event) {
    && e.actor in p.members && e.actor !in p.banned
    && match e.action
       case Admit(role) => e.actor == p.owner && e.target !in p.members && e.target !in p.banned && role != Role.Owner
       case ChangeRole(role) =>
         e.actor == p.owner && e.target in p.members && e.target != p.owner && e.target !in p.banned
         && role != Role.Owner
       case BanPeer => Over(p, e.actor, e.target) && e.target !in p.banned
       case Unban => Over(p, e.actor, e.target) && e.target in p.banned
       case Grant(x) =>
         Over(p, e.actor, e.target) && e.target !in p.banned
         && (e.actor == p.owner || x in {PinMessages, Invite, Kick, Permission.Ban})
       case Revoke(x) =>
         Over(p, e.actor, e.target) && e.target !in p.banned
         && (e.actor == p.owner || x in {PinMessages, Invite, Kick, Permission.Ban})
  }

  /** Both ends of the event may take part at all. */
  predicate Speaks(p: Policy, e: Event) {
    e.actor in p.members && e.actor !in p.banned && (e.target !in p.banned || e.action.Unban?)
  }

  /** An event is accepted exactly if the room is well-formed, the event authentic and the table permits it. */
  lemma AcceptedIff(c: Crypto, p: Policy, e: Event)
    ensures Evaluate(c, p, e).Ok? <==> WellFormed(p) && Authentic(c, p, e) && Permitted(p, e)
  {
    ValidateIffWellFormed(p);
    hide Validate;
  }

  ghost predicate TouchesOwner(p: Policy, e: Event) { e.target == p.owner || e.action == ChangeRole(Role.Owner) }

  /** Why an authentic event is rejected. */
  lemma RejectedBecause(c: Crypto, p: Policy, e: Event)
    requires WellFormed(p) && Authentic(c, p, e)
    ensures var r := Evaluate(c, p, e);
      && (r == Err(UnknownActor) <==> e.actor !in p.members)
      && (r == Err(Banned) <==> e.actor in p.members && !Speaks(p, e))
      && (r == Err(OwnerSafety) <==> Speaks(p, e) && TouchesOwner(p, e))
      && (r == Err(UnknownTarget) <==>
            Speaks(p, e) && !TouchesOwner(p, e) && !Permitted(p, e) && e.target !in p.members)
      && (r == Err(PermissionDenied) <==>
            Speaks(p, e) && !TouchesOwner(p, e) && !Permitted(p, e) && e.target in p.members)
  {
    ValidateIffWellFormed(p);
    hide Validate;
  }

  /** Why an event is not even looked at, the first reason first. */
  lemma NotAuthenticBecause(c: Crypto, p: Policy, e: Event)
    requires WellFormed(p)
    ensures var r := Evaluate(c, p, e);
      var id := c.deriveId(e.groupId, e.sequence, e.actor, e.target, e.action);
      if e.version != 1 then r == Err(UnsupportedVersion(e.version))
      else if e.groupId != p.groupId then r == Err(WrongGroup)
      else if e.eventId in p.appliedEvents then r == Err(Replay)
      else if e.sequence != Min(p.lastSequence + 1, U64_MAX) then r == Err(OutOfOrder(p.lastSequence, e.sequence))
      else if id == None then r == Err(Decode)
      else if id != Some(e.eventId) then r == Err(EventIdMismatch)
      else if c.checkSignature(e) == Unencodable then r == Err(Decode)
      else if c.checkSignature(e) == Forged then r == Err(InvalidSignature)
      else Authentic(c, p, e)
  {
    ValidateIffWellFormed(p);
    hide Validate, Allowed;
  }

  /** The permissions that come with a role. */
  predicate RoleHas(role: Role, x: Permission) {
    match x
    case SendMessages => true
    case PinMessages => role != Guest
    case ScreenShare => role != Guest
    case Invite => role == Moderator || role == Role.Owner
    case Kick => role == Moderator || role == Role.Owner
    case Ban => role == Moderator || role == Role.Owner
    case ManageRoom => role == Role.Owner
    case ManageRoles => role == Role.Owner
  }

  lemma DefaultsAre(role: Role, x: Permission)
    ensures x in role.DefaultPermissions() <==> RoleHas(role, x)
  {
  }

  /** What an accepted event does to the standing of any peer `q`, and that it does nothing else. */
  lemma EffectIs(c: Crypto, p: Policy, e: Event, q: PublicKey, x: Permission)
    requires Evaluate(c, p, e).Ok?
    ensures var r, a := Step(c, p, Deliver(e)), e.action;
      var sets := q == e.target && (a.Admit? || a.ChangeRole?);
      && (q in r.members <==> q in p.members || sets)
      && (q in r.members ==> r.members[q] == if sets then a.role else p.members[q])
      && (q in r.banned <==> if q == e.target && a.BanPeer? then true
                             else if q == e.target && a.Unban? then false else q in p.banned)
      && (x in PermissionsOf(r, q) <==>
            if sets then RoleHas(a.role, x)
            else if q == e.target && a == Grant(x) then true
            else if q == e.target && a == Revoke(x) then false
            else x in PermissionsOf(p, q))
      && r.owner == p.owner && r.groupId == p.groupId
      && r.lastSequence == e.sequence && r.appliedEvents == p.appliedEvents + {e.eventId}
  {
    ValidateIffWellFormed(p);
    if e.action.Admit? || e.action.ChangeRole? {
      DefaultsAre(e.action.role, x);
    }
    hide Validate, Verify, Allowed;
  }

  /** The same for an admission outside the log. */
  lemma BootstrapIs(c: Crypto, p: Policy, peer: PublicKey, role: Role, q: PublicKey, x: Permission)
    ensures var r := Step(c, p, Bootstrap(peer, role));
      var refused := peer in p.banned || peer in p.members || role == Role.Owner;
      && (refused ==> r == p)
      && (!refused ==>
            && r == p.(members := r.members, permissions := r.permissions) && r.members == p.members[peer := role]
            && (x in PermissionsOf(r, q) <==> if q == peer then RoleHas(role, x) else x in PermissionsOf(p, q)))
  {
    DefaultsAre(role, x);
  }

  /** The event comes from a guest, a member, or somebody unknown. */
  predicate Powerless(p: Policy, op: Op) {
    op.Deliver? && (op.event.actor in p.members ==> p.members[op.event.actor] in {Guest, Member})
  }

  /** Whatever guests, members and strangers send, in any number and order, changes nothing. */
  lemma {:induction false} PowerlessChangeNothing(c: Crypto, p: Policy, ops: seq<Op>)
    requires forall i | 0 <= i < |ops| :: Powerless(p, ops[i])
    ensures Run(c, p, ops) == p
  {
    if ops != [] {
      PowerlessChangeNothing(c, p, ops[..|ops| - 1]);
      AcceptedIff(c, p, ops[|ops| - 1].event);
      hide Evaluate;
    }
  }

  // ---- Every capability of every run ----

  /** Accepting `op` leaves `q` with permission `x`. */
  predicate Gives(op: Op, q: PublicKey, x: Permission) {
    match op
    case Bootstrap(peer, role) => peer == q && RoleHas(role, x)
    case Deliver(e) =>
      e.target == q && match e.action
        case Admit(role) => RoleHas(role, x)
        case ChangeRole(role) => RoleHas(role, x)
        case Grant(y) => x == y
        case _ => false
  }

  /** Accepting `op` leaves `q` without permission `x`. */
  predicate Takes(op: Op, q: PublicKey, x: Permission) {
    match op
    case Bootstrap(peer, role) => peer == q && !RoleHas(role, x)
    case Deliver(e) =>
      e.target == q && match e.action
        case Admit(role) => !RoleHas(role, x)
        case ChangeRole(role) => !RoleHas(role, x)
        case Revoke(y) => x == y
        case _ => false
  }

  lemma CapabilityStep(c: Crypto, p: Policy, op: Op, q: PublicKey, x: Permission)
    ensures x in PermissionsOf(Step(c, p, op), q) <==>
      if Accepts(c, p, op) && Gives(op, q, x) then true
      else if Accepts(c, p, op) && Takes(op, q, x) then false
      else x in PermissionsOf(p, q)
  {
    match op {
      case Deliver(e) =>
        if Evaluate(c, p, e).Ok? {
          EffectIs(c, p, e, q, x);
        }
        hide Evaluate, Mutated;
      case Bootstrap(peer, role) =>
        BootstrapIs(c, p, peer, role, q, x);
    }
  }

  /** Operation `j` was accepted and gave `x` to `q`, and no accepted one since took it. */
  ghost predicate Stands(c: Crypto, p: Policy, ops: seq<Op>, j: nat, q: PublicKey, x: Permission) {
    && j < |ops| && Gives(ops[j], q, x) && AcceptedAt(c, p, ops, j)
    && forall k | j < k < |ops| && Takes(ops[k], q, x) :: !AcceptedAt(c, p, ops, k)
  }

  lemma StandsSnoc(c: Crypto, p: Policy, ops: seq<Op>, j: nat, q: PublicKey, x: Permission)
    requires ops != [] && j < |ops| - 1
    ensures var n := |ops| - 1;
      Stands(c, p, ops, j, q, x)
      <==> Stands(c, p, ops[..n], j, q, x) && !(Takes(ops[n], q, x) && AcceptedAt(c, p, ops, n))
  {
    var n := |ops| - 1;
    hide Gives, Takes, Accepts, Run;
    forall k: nat | k < n
      ensures AcceptedAt(c, p, ops, k) == AcceptedAt(c, p, ops[..n], k) && ops[k] == ops[..n][k]
    {
      assert ops[..k] == ops[..n][..k];
    }
  }

  /**
   Every peer but the owner, every permission, every run: it is held exactly if some accepted grant, admission or
   role change gave it and no accepted revocation, admission or role change has taken it since.
   */
  lemma {:induction false} CapabilityProvenance(
    c: Crypto, groupId: TopicId, owner: PublicKey, ops: seq<Op>, q: PublicKey, x: Permission)
    requires q != owner
    ensures var p0 := NewRoom(groupId, owner);
      x in PermissionsOf(Run(c, p0, ops), q) <==> exists j: nat :: Stands(c, p0, ops, j, q, x)
  {
    var p0 := NewRoom(groupId, owner);
    if ops != [] {
      var n := |ops| - 1;
      CapabilityProvenance(c, groupId, owner, ops[..n], q, x);
      CapabilityStep(c, Run(c, p0, ops[..n]), ops[n], q, x);
      hide Gives, Takes, Accepts, Step;
      forall j: nat | j < n
        ensures Stands(c, p0, ops, j, q, x)
          <==> Stands(c, p0, ops[..n], j, q, x) && !(Takes(ops[n], q, x) && AcceptedAt(c, p0, ops, n))
      {
        StandsSnoc(c, p0, ops, j, q, x);
      }
      CapabilityCases(c, p0, ops, q, x);
    }
  }

  lemma CapabilityCases(c: Crypto, p: Policy, ops: seq<Op>, q: PublicKey, x: Permission)
    requires ops != []
    requires var n := |ops| - 1;
      forall j: nat | j < n ::
        Stands(c, p, ops, j, q, x)
        <==> Stands(c, p, ops[..n], j, q, x) && !(Takes(ops[n], q, x) && AcceptedAt(c, p, ops, n))
    ensures var n := |ops| - 1;
      (exists j: nat :: Stands(c, p, ops, j, q, x)) <==>
      || (Gives(ops[n], q, x) && AcceptedAt(c, p, ops, n))
      || ((exists j: nat :: Stands(c, p, ops[..n], j, q, x)) && !(Takes(ops[n], q, x) && AcceptedAt(c, p, ops, n)))
  {
    var n := |ops| - 1;
    hide Gives, Takes, AcceptedAt;
    if Gives(ops[n], q, x) && AcceptedAt(c, p, ops, n) {
      assert Stands(c, p, ops, n, q, x);
    }
    if j: nat :| Stands(c, p, ops[..n], j, q, x) {
      assert j < n;
    }
  }

  predicate Bans(op: Op, q: PublicKey) { op.Deliver? && op.event.action.BanPeer? && op.event.target == q }

  /** Operation `j` was an accepted ban of `q`, and no accepted unban followed. */
  ghost predicate BanStands(c: Crypto, p: Policy, ops: seq<Op>, j: nat, q: PublicKey) {
    && j < |ops| && Bans(ops[j], q) && AcceptedAt(c, p, ops, j)
    && forall k | j < k < |ops| && Unbans(ops[k], q) :: !AcceptedAt(c, p, ops, k)
  }

  lemma BanStandsSnoc(c: Crypto, p: Policy, ops: seq<Op>, j: nat, q: PublicKey)
    requires ops != [] && j < |ops| - 1
    ensures var n := |ops| - 1;
      BanStands(c, p, ops, j, q)
      <==> BanStands(c, p, ops[..n], j, q) && !(Unbans(ops[n], q) && AcceptedAt(c, p, ops, n))
  {
    var n := |ops| - 1;
    hide Unbans, Accepts, Run;
    forall k: nat | k < n
      ensures AcceptedAt(c, p, ops, k) == AcceptedAt(c, p, ops[..n], k) && ops[k] == ops[..n][k]
    {
      assert ops[..k] == ops[..n][..k];
    }
  }

  /** Who is banned after any run: exactly those with an accepted ban that no accepted unban followed. */
  lemma {:induction false} BannedIff(c: Crypto, groupId: TopicId, owner: PublicKey, ops: seq<Op>, q: PublicKey)
    ensures var p0 := NewRoom(groupId, owner);
      q in Run(c, p0, ops).banned <==> exists j: nat :: BanStands(c, p0, ops, j, q)
  {
    var p0 := NewRoom(groupId, owner);
    if ops != [] {
      var n := |ops| - 1;
      BannedIff(c, groupId, owner, ops[..n], q);
      BannedStep(c, Run(c, p0, ops[..n]), ops[n], q);
      hide Accepts, Step, Unbans;
      forall j: nat | j < n
        ensures BanStands(c, p0, ops, j, q)
          <==> BanStands(c, p0, ops[..n], j, q) && !(Unbans(ops[n], q) && AcceptedAt(c, p0, ops, n))
      {
        BanStandsSnoc(c, p0, ops, j, q);
      }
      BanCases(c, p0, ops, q);
    }
  }

  lemma BanCases(c: Crypto, p: Policy, ops: seq<Op>, q: PublicKey)
    requires ops != []
    requires var n := |ops| - 1;
      forall j: nat | j < n ::
        BanStands(c, p, ops, j, q)
        <==> BanStands(c, p, ops[..n], j, q) && !(Unbans(ops[n], q) && AcceptedAt(c, p, ops, n))
    ensures var n := |ops| - 1;
      (exists j: nat :: BanStands(c, p, ops, j, q)) <==>
      || (Bans(ops[n], q) && AcceptedAt(c, p, ops, n))
      || ((exists j: nat :: BanStands(c, p, ops[..n], j, q)) && !(Unbans(ops[n], q) && AcceptedAt(c, p, ops, n)))
  {
    var n := |ops| - 1;
    hide Bans, Unbans, AcceptedAt;
    if Bans(ops[n], q) && AcceptedAt(c, p, ops, n) {
      assert BanStands(c, p, ops, n, q);
    }
    if j: nat :| BanStands(c, p, ops[..n], j, q) {
      assert j < n;
    }
  }

  /** What the enforcement boundary allows after any run, from the accepted operations alone. */
  lemma AllowsIff(c: Crypto, groupId: TopicId, owner: PublicKey, ops: seq<Op>, q: PublicKey, x: Permission)
    requires q != owner
    ensures var p0 := NewRoom(groupId, owner);
      Allows(Run(c, p0, ops), q, x)
      <==> (exists j: nat :: Stands(c, p0, ops, j, q, x)) && !exists j: nat :: BanStands(c, p0, ops, j, q)
  {
    ReachableSound(c, groupId, owner, ops);
    CapabilityProvenance(c, groupId, owner, ops, q, x);
    BannedIff(c, groupId, owner, ops, q);
    hide Run, Stands, BanStands;
  }

  lemma BannedStep(c: Crypto, p: Policy, op: Op, q: PublicKey)
    ensures q in Step(c, p, op).banned <==>
      if Accepts(c, p, op) && Bans(op, q) then true
      else if Accepts(c, p, op) && Unbans(op, q) then false
      else q in p.banned
  {
    hide Evaluate;
  }

  // ------------------------------------------------------------------
  // Replica consistency
  // ------------------------------------------------------------------

  /** The state of a replica after a delivery schedule. */
  function DeliverAll(c: Crypto, p: Policy, schedule: seq<Event>): Policy {
    if schedule == [] then p
    else Step(c, DeliverAll(c, p, schedule[..|schedule| - 1]), Deliver(schedule[|schedule| - 1]))
  }

  /** The events of the schedule that the replica accepted, in the order it accepted them. */
  function Accepted(c: Crypto, p: Policy, schedule: seq<Event>): seq<Event> {
    if schedule == [] then []
    else
      var rest, e := schedule[..|schedule| - 1], schedule[|schedule| - 1];
      if Evaluate(c, DeliverAll(c, p, rest), e).Ok? then Accepted(c, p, rest) + [e] else Accepted(c, p, rest)
  }

  predicate Genuine(c: Crypto, e: Event) { c.checkSignature(e).Genuine? }

  /** No two different genuine events carry the same sequence number; forged ones may reuse any. */
  ghost predicate OnePerSequence(c: Crypto, events: seq<Event>) {
    forall e, f | e in events && f in events && Genuine(c, e) && Genuine(c, f) && e.sequence == f.sequence :: e == f
  }

  /** Loss, duplicates and reordering leave no trace: the state is the fold of the accepted events alone. */
  lemma {:induction false} StateIsFoldOfAccepted(c: Crypto, p: Policy, schedule: seq<Event>)
    ensures DeliverAll(c, p, schedule) == DeliverAll(c, p, Accepted(c, p, schedule))
    ensures Accepted(c, p, Accepted(c, p, schedule)) == Accepted(c, p, schedule)
    ensures forall e | e in Accepted(c, p, schedule) :: e in schedule && Genuine(c, e)
  {
    if schedule != [] {
      var rest, e := schedule[..|schedule| - 1], schedule[|schedule| - 1];
      StateIsFoldOfAccepted(c, p, rest);
      var a := Accepted(c, p, rest);
      assert (a + [e])[..|a|] == a;
    }
  }

  /** Accepted events are numbered consecutively, saturating at the top of the counter. */
  lemma {:induction false} AcceptedNumbering(c: Crypto, p: Policy, schedule: seq<Event>)
    ensures var a := Accepted(c, p, schedule);
      && (forall i | 0 <= i < |a| :: a[i].sequence == Min(p.lastSequence + i + 1, U64_MAX))
      && DeliverAll(c, p, schedule).lastSequence == Min(p.lastSequence + |a|, U64_MAX)
  {
    if schedule != [] {
      AcceptedNumbering(c, p, schedule[..|schedule| - 1]);
    }
  }

  /** The replay set grows by exactly the ids of the accepted events, all of them new. */
  lemma {:induction false} ReplaySetIsAccepted(c: Crypto, p: Policy, schedule: seq<Event>)
    ensures var a, q := Accepted(c, p, schedule), DeliverAll(c, p, schedule);
      && |q.appliedEvents| == |p.appliedEvents| + |a|
      && (forall id ::
            id in q.appliedEvents <==> id in p.appliedEvents || exists i | 0 <= i < |a| :: a[i].eventId == id)
  {
    if schedule != [] {
      var rest, e := schedule[..|schedule| - 1], schedule[|schedule| - 1];
      ReplaySetIsAccepted(c, p, rest);
      var a, q := Accepted(c, p, rest), DeliverAll(c, p, rest);
      if Evaluate(c, q, e).Ok? {
        assert Accepted(c, p, schedule) == a + [e];
        assert (a + [e])[|a|].eventId == e.eventId;
        assert forall i | 0 <= i < |a| :: (a + [e])[i].eventId == a[i].eventId;
        assert q.appliedEvents !! {e.eventId};
      }
    }
  }

  lemma ReplayRejected(c: Crypto, p: Policy, e: Event)
    requires e.eventId in p.appliedEvents
    ensures Step(c, p, Deliver(e)) == p && Evaluate(c, p, e).Err?
  {
  }

  /** With one genuine event per sequence number, accepted sequence numbers strictly increase. */
  lemma {:induction false} AcceptedStrictlyIncreasing(c: Crypto, p: Policy, d: seq<Event>)
    requires OnePerSequence(c, d)
    ensures var a := Accepted(c, p, d);
      forall i | 0 <= i < |a| - 1 :: a[i].sequence < a[i + 1].sequence
  {
    if d != [] {
      var rest, e := d[..|d| - 1], d[|d| - 1];
      assert OnePerSequence(c, rest);
      AcceptedStrictlyIncreasing(c, p, rest);
      AcceptedNumbering(c, p, rest);
      var a, q := Accepted(c, p, rest), DeliverAll(c, p, rest);
      hide Evaluate, OnePerSequence, DeliverAll;
      if Evaluate(c, q, e).Ok? {
        AcceptedFacts(c, q, e);
        if a != [] {
          LastDiffers(c, p, d);
        }
      }
    }
  }

  lemma AcceptedFacts(c: Crypto, q: Policy, e: Event)
    requires Evaluate(c, q, e).Ok?
    ensures Genuine(c, e) && e.eventId !in q.appliedEvents && e.sequence == SaturatingSucc(q.lastSequence, U64_MAX)
  {
  }

  /** An accepted event is not the one accepted before it, and so has another number. */
  lemma LastDiffers(c: Crypto, p: Policy, d: seq<Event>)
    requires d != [] && OnePerSequence(c, d)
    requires var rest := d[..|d| - 1];
      Evaluate(c, DeliverAll(c, p, rest), d[|d| - 1]).Ok? && Accepted(c, p, rest) != []
    ensures var a := Accepted(c, p, d[..|d| - 1]); a[|a| - 1].sequence != d[|d| - 1].sequence
  {
    var rest, e := d[..|d| - 1], d[|d| - 1];
    AcceptedFacts(c, DeliverAll(c, p, rest), e);
    ReplaySetIsAccepted(c, p, rest);
    StateIsFoldOfAccepted(c, p, rest);
    hide Evaluate, DeliverAll, Accepted;
    var a := Accepted(c, p, rest);
    var last := a[|a| - 1];
    assert last.eventId in DeliverAll(c, p, rest).appliedEvents;
    assert last in a && last in d && e in d && last != e;
  }

  /** Two replicas, fed with any loss, duplication, reordering and forgery, have prefix-related accepted histories. */
  lemma {:induction false} ReplicasPrefixRelated(c: Crypto, p: Policy, d1: seq<Event>, d2: seq<Event>)
    requires OnePerSequence(c, d1 + d2)
    ensures Accepted(c, p, d1) <= Accepted(c, p, d2) || Accepted(c, p, d2) <= Accepted(c, p, d1)
  {
    var a1, a2 := Accepted(c, p, d1), Accepted(c, p, d2);
    AcceptedNumbering(c, p, d1);
    AcceptedNumbering(c, p, d2);
    StateIsFoldOfAccepted(c, p, d1);
    StateIsFoldOfAccepted(c, p, d2);
    forall i | 0 <= i < |a1| && i < |a2|
      ensures a1[i] == a2[i]
    {
      assert a1[i] in a1 && a2[i] in a2;
      assert a1[i] in d1 + d2 && a2[i] in d1 + d2;
    }
  }

  /** Below the top of the counter, acceptance advances it by exactly one per event. */
  lemma {:induction false} HeightCountsAccepted(c: Crypto, p: Policy, d: seq<Event>)
    requires OnePerSequence(c, d) && p.lastSequence < U64_MAX
    ensures var a := Accepted(c, p, d);
      && DeliverAll(c, p, d).lastSequence == p.lastSequence + |a|
      && forall i | 0 <= i < |a| :: a[i].sequence == p.lastSequence + i + 1
  {
    var a := Accepted(c, p, d);
    AcceptedNumbering(c, p, d);
    AcceptedStrictlyIncreasing(c, p, d);
    assert |a| >= 2 ==> a[|a| - 2].sequence < a[|a| - 2 + 1].sequence;
  }

  /** Replicas at the same sequence number are in the same state. */
  lemma {:induction false} SameHeightSameState(c: Crypto, p: Policy, d1: seq<Event>, d2: seq<Event>)
    requires OnePerSequence(c, d1 + d2) && p.lastSequence < U64_MAX
    requires DeliverAll(c, p, d1).lastSequence == DeliverAll(c, p, d2).lastSequence
    ensures DeliverAll(c, p, d1) == DeliverAll(c, p, d2)
  {
    assert OnePerSequence(c, d1) && OnePerSequence(c, d2);
    ReplicasPrefixRelated(c, p, d1, d2);
    HeightCountsAccepted(c, p, d1);
    HeightCountsAccepted(c, p, d2);
    StateIsFoldOfAccepted(c, p, d1);
    StateIsFoldOfAccepted(c, p, d2);
    assert Accepted(c, p, d1) == Accepted(c, p, d2);
  }

  /** Whatever else is delivered, a replica whose genuine events come from a log has accepted a prefix of that log. */
  lemma {:induction false} AcceptedIsLogPrefix(c: Crypto, p: Policy, log: seq<Event>, d: seq<Event>)
    requires p.lastSequence < U64_MAX && OnePerSequence(c, log)
    requires Accepted(c, p, log) == log
    requires forall e | e in d && Genuine(c, e) :: e in log
    ensures Accepted(c, p, d) <= log
  {
    assert OnePerSequence(c, log + d) && OnePerSequence(c, d);
    ReplicasPrefixRelated(c, p, log, d);
    HeightCountsAccepted(c, p, log);
    HeightCountsAccepted(c, p, d);
    StateIsFoldOfAccepted(c, p, d);
    var a := Accepted(c, p, d);
    if a != [] {
      assert a[|a| - 1] in a;
      var k :| 0 <= k < |log| && log[k] == a[|a| - 1];
      assert |a| == k + 1;
    }
  }

  /**
   Convergence: whatever a replica saw before, forged events and events beyond the log included, replaying the
   log brings it to the state of the log, or leaves it where it was if it had already accepted more than the log.
   */
  lemma {:induction false} ReplayConverges(c: Crypto, p: Policy, log: seq<Event>, d: seq<Event>)
    requires OnePerSequence(c, log + d) && Accepted(c, p, log) == log
    ensures DeliverAll(c, DeliverAll(c, p, d), log)
      == DeliverAll(c, p, if |Accepted(c, p, d)| <= |log| then log else d)
  {
    ReplicasPrefixRelated(c, p, log, d);
    assert log[..|log|] == log;
    if |Accepted(c, p, d)| <= |log| {
      ReplayPrefix(c, p, log, d, |log|);
    } else {
      ReplaySetIsAccepted(c, p, d);
      forall i | 0 <= i < |log|
        ensures log[i].eventId in DeliverAll(c, p, d).appliedEvents
      {
        assert log[i] == Accepted(c, p, d)[i];
      }
      ReplayOfKnown(c, DeliverAll(c, p, d), log);
    }
  }

  lemma {:induction false} ReplayOfKnown(c: Crypto, q: Policy, log: seq<Event>)
    requires forall i | 0 <= i < |log| :: log[i].eventId in q.appliedEvents
    ensures DeliverAll(c, q, log) == q
  {
    if log != [] {
      ReplayOfKnown(c, q, log[..|log| - 1]);
      ReplayRejected(c, q, log[|log| - 1]);
    }
  }

  /** The first `n` events of the replay add nothing until they pass what the replica had. */
  lemma {:induction false} ReplayPrefix(c: Crypto, p: Policy, log: seq<Event>, d: seq<Event>, n: nat)
    requires Accepted(c, p, d) <= log
    requires n <= |log|
    ensures var seen := |Accepted(c, p, d)|;
      DeliverAll(c, DeliverAll(c, p, d), log[..n]) == DeliverAll(c, p, log[..if n <= seen then seen else n])
  {
    var a := Accepted(c, p, d);
    var q := DeliverAll(c, p, d);
    StateIsFoldOfAccepted(c, p, d);
    assert a == log[..|a|];
    hide Evaluate, Step, Accepted;
    if n > 0 {
      ReplayPrefix(c, p, log, d, n - 1);
      assert log[..n][..n - 1] == log[..n - 1];
      if n <= |a| {
        ReplaySetIsAccepted(c, p, d);
        assert a[n - 1].eventId in q.appliedEvents;
        ReplayRejected(c, q, log[n - 1]);
      }
    }
  }

  // ------------------------------------------------------------------
  // Bans
  // ------------------------------------------------------------------

  /** Operation `op` is an unban of `q`. */
  predicate Unbans(op: Op, q: PublicKey) {
    op.Deliver? && op.event.action.Unban? && op.event.target == q
  }

  /** While `q` stays banned nothing changes its role or permissions, and nothing it signs is accepted. */
  lemma {:induction false} BanFreezes(c: Crypto, p: Policy, ops: seq<Op>, q: PublicKey)
    requires q in p.banned
    requires forall i | 0 <= i < |ops| && Unbans(ops[i], q) :: !AcceptedAt(c, p, ops, i)
    ensures var r := Run(c, p, ops);
      && q in r.banned
      && (q in r.members <==> q in p.members) && (q in p.members ==> r.members[q] == p.members[q])
      && (q in r.permissions <==> q in p.permissions)
      && (q in p.permissions ==> r.permissions[q] == p.permissions[q])
    ensures forall i | 0 <= i < |ops| && ops[i].Deliver? && ops[i].event.actor == q :: !AcceptedAt(c, p, ops, i)
  {
    if ops != [] {
      var rest := ops[..|ops| - 1];
      assert forall i | 0 <= i < |rest| :: ops[..i] == rest[..i];
      assert forall i | 0 <= i < |rest| :: AcceptedAt(c, p, ops, i) == AcceptedAt(c, p, rest, i);
      BanFreezes(c, p, rest, q);
      assert ops[..|ops| - 1] == rest;
    }
  }

  /**
   Ban and unban are inverse: an accepted ban denies `q` everything, and after the next
   accepted unban every capability is what it was just before the ban.
   */
  lemma {:induction false} BanUnbanRoundTrip(c: Crypto, p: Policy, ban: Event, ops: seq<Op>, unban: Event)
    requires ban.action.BanPeer? && Evaluate(c, p, ban).Ok?
    requires var q := ban.target; var s := Mutated(p, ban);
      && (forall i | 0 <= i < |ops| && Unbans(ops[i], q) :: !AcceptedAt(c, s, ops, i))
      && unban.action.Unban? && unban.target == q && Evaluate(c, Run(c, s, ops), unban).Ok?
    ensures var q := ban.target; var s := Mutated(p, ban); var t := Run(c, s, ops);
      && (forall x: Permission :: !Allows(s, q, x) && !Allows(t, q, x))
      && (forall x: Permission :: Allows(Mutated(t, unban), q, x) <==> Allows(p, q, x))
  {
    BanFreezes(c, Mutated(p, ban), ops, ban.target);
  }

  // ------------------------------------------------------------------
  // Provenance of authority
  // ------------------------------------------------------------------

  /** Only events signed by the owner change who is a member, or in which role. */
  lemma {:induction false} MembersChangeOnlyByOwner(c: Crypto, p: Policy, e: Event)
    requires Step(c, p, Deliver(e)).members != p.members
    ensures Evaluate(c, p, e).Ok? && e.actor == p.owner
    ensures c.checkSignature(e).Genuine?
    ensures Step(c, p, Deliver(e)).members == p.members[e.target := e.action.role] && e.action.role != Role.Owner
  {
    ValidateIffWellFormed(p);
  }

  /** Accepting `op` gives `q` the default permissions of a role. */
  predicate SetsRole(op: Op, q: PublicKey) {
    match op
    case Deliver(e) => e.target == q && (e.action.ChangeRole? || e.action.Admit?)
    case Bootstrap(peer, _) => peer == q
  }

  /** Accepting `op` takes permission `x`, unless it is a default, away from `q`. */
  predicate Resets(op: Op, q: PublicKey, x: Permission) {
    SetsRole(op, q) || (op.Deliver? && op.event.target == q && op.event.action == Revoke(x))
  }

  /** Operation `j` is an accepted grant of `x` to `q` signed by the owner. */
  ghost predicate OwnerGrant(c: Crypto, p: Policy, ops: seq<Op>, j: nat, q: PublicKey, x: Permission)
    requires j < |ops|
  {
    && ops[j].Deliver? && AcceptedAt(c, p, ops, j)
    && ops[j].event.actor == p.owner && ops[j].event.target == q && ops[j].event.action == Grant(x)
  }

  /** ... which no later accepted role change or revocation of `q` has undone. */
  ghost predicate GrantStands(c: Crypto, p: Policy, ops: seq<Op>, j: nat, q: PublicKey, x: Permission)
    requires j < |ops|
  {
    && OwnerGrant(c, p, ops, j, q, x)
    && forall k | j < k < |ops| && Resets(ops[k], q, x) :: !AcceptedAt(c, p, ops, k)
  }

  /**
   A non-owner holds ManageRoom or ManageRoles exactly when the owner granted it and no
   role change or revocation has been accepted for that peer since.
   */
  lemma {:induction false} AuthorityProvenance(
    c: Crypto, groupId: TopicId, owner: PublicKey, ops: seq<Op>, q: PublicKey, x: Permission)
    requires q != owner && (x == ManageRoom || x == ManageRoles)
    ensures var p0 := NewRoom(groupId, owner);
      x in PermissionsOf(Run(c, p0, ops), q)
      <==> exists j: nat | j < |ops| :: GrantStands(c, p0, ops, j, q, x)
  {
    var p0 := NewRoom(groupId, owner);
    if ops != [] {
      var n := |ops| - 1;
      var rest, op := ops[..n], ops[n];
      ReachableSound(c, groupId, owner, rest);
      AuthorityProvenance(c, groupId, owner, rest, q, x);
      SnocGrants(c, p0, ops, q, x);
      HoldingStep(c, Run(c, p0, rest), op, q, x);
      assert GrantStands(c, p0, ops, n, q, x) <==> OwnerGrant(c, p0, ops, n, q, x);
      if x in PermissionsOf(Run(c, p0, ops), q) && !OwnerGrant(c, p0, ops, n, q, x) {
        var j: nat :| j < n && GrantStands(c, p0, rest, j, q, x);
        assert GrantStands(c, p0, ops, j, q, x);
      }
    }
  }

  /** The permissions a moderator may not hand out. */
  predicate OwnerOnly(x: Permission) {
    x in {SendMessages, ScreenShare, ManageRoom, ManageRoles}
  }

  /**
   Holding one of the owner-only permissions beyond one's role needs an owner-signed grant
   that no role change or revocation has undone.
   */
  lemma {:induction false} EscalationNeedsOwner(
    c: Crypto, groupId: TopicId, owner: PublicKey, ops: seq<Op>, q: PublicKey, x: Permission)
    requires q != owner && OwnerOnly(x)
    requires var p := Run(c, NewRoom(groupId, owner), ops);
      q in p.members && x in PermissionsOf(p, q) && x !in p.members[q].DefaultPermissions()
    ensures exists j: nat | j < |ops| :: GrantStands(c, NewRoom(groupId, owner), ops, j, q, x)
  {
    var p0 := NewRoom(groupId, owner);
    if ops != [] {
      var n := |ops| - 1;
      var rest, op := ops[..n], ops[n];
      var before := Run(c, p0, rest);
      ReachableSound(c, groupId, owner, rest);
      SnocGrants(c, p0, ops, q, x);
      EscalationStep(c, before, op, q, x);
      if OwnerGrant(c, p0, ops, n, q, x) {
        assert GrantStands(c, p0, ops, n, q, x);
      } else {
        EscalationNeedsOwner(c, groupId, owner, rest, q, x);
        var j: nat :| j < n && GrantStands(c, p0, rest, j, q, x);
        assert GrantStands(c, p0, ops, j, q, x);
      }
    }
  }

  lemma EscalationStep(c: Crypto, p: Policy, op: Op, q: PublicKey, x: Permission)
    requires Sound(p) && q != p.owner && OwnerOnly(x)
    requires var r := Step(c, p, op);
      q in r.members && x in PermissionsOf(r, q) && x !in r.members[q].DefaultPermissions()
    ensures
      || (Accepts(c, p, op) && op.Deliver? && op.event.actor == p.owner
          && op.event.target == q && op.event.action == Grant(x))
      || (q in p.members && x in PermissionsOf(p, q) && x !in p.members[q].DefaultPermissions()
          && !(Accepts(c, p, op) && Resets(op, q, x)))
  {
  }

  /** One operation: `q` holds `x` afterwards iff it was just granted by the owner, or was held and not reset. */
  lemma HoldingStep(c: Crypto, p: Policy, op: Op, q: PublicKey, x: Permission)
    requires Sound(p) && q != p.owner && (x == ManageRoom || x == ManageRoles)
    ensures x in PermissionsOf(Step(c, p, op), q) <==>
      || (Accepts(c, p, op) && op.Deliver? && op.event.actor == p.owner
          && op.event.target == q && op.event.action == Grant(x))
      || (x in PermissionsOf(p, q) && !(Accepts(c, p, op) && Resets(op, q, x)))
  {
  }

  /** A grant stands after one more operation unless that operation is accepted and resets it. */
  lemma {:induction false} SnocGrants(c: Crypto, p: Policy, ops: seq<Op>, q: PublicKey, x: Permission)
    requires ops != []
    ensures var n := |ops| - 1;
      forall j: nat | j < n ::
        GrantStands(c, p, ops, j, q, x)
        <==> GrantStands(c, p, ops[..n], j, q, x) && !(Resets(ops[n], q, x) && AcceptedAt(c, p, ops, n))
  {
    var n := |ops| - 1;
    var rest := ops[..n];
    forall j: nat | j < n
      ensures AcceptedAt(c, p, ops, j) == AcceptedAt(c, p, rest, j)
    {
      assert ops[..j] == rest[..j];
    }
  }
}
