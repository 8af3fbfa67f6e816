/** The device roster of one account: sign-in, recovery, roster uploads and password changes as they
    move device rows between pending, active and revoked, the recovery grants, and the roster's
    counter and epoch. Each request is one step at a clock reading; proofs of possession, signatures
    and stored keys enter as booleans. */
module Roster {
  import opened Wrappers
  import Sessions

  type Client = Sessions.Client

  datatype Status = Pending | Active | Revoked

  datatype Device = Device(status: Status, grantAt: Option<nat>, recoveredAt: Option<nat>)

  datatype Watermarks = Watermarks(counter: int, epoch: int)

  datatype State = State(now: nat, roster: Option<Watermarks>, devices: map<Client, Device>)

  /** Seconds a recovery grant, or the waiver of the current password, stays fresh. */
  const FRESH_FOR: nat := 15 * 60
  const MAX_REMOVED: nat := 32

  /** The current key sent with a removal or a password change. */
  datatype AuthKey = Absent | Garbled | Wrong | Right

  datatype Error = BadRequest | Unauthorized | Forbidden | NotFound | Conflict

  datatype Upload = Upload(
    signed: bool, caller: Option<Client>, counter: int, epoch: int,
    active: seq<Client>, revoked: seq<Client>, key: AuthKey)

  /** `elsewhere`: the client id is enrolled under another account. */
  datatype Event =
    | Login(at: nat, d: Client, elsewhere: bool)
    | Recover(at: nat, d: Client, elsewhere: bool)
    | Put(at: nat, u: Upload)
    | ChangePassword(at: nat, caller: Option<Client>, key: AuthKey)

  predicate FreshAt(stamp: Option<nat>, now: nat) { stamp.Some? && stamp.value + FRESH_FOR > now }

  predicate Is(s: State, d: Client, status: Status) { d in s.devices && s.devices[d].status == status }

  // ---- Sign-in ----------------------------------------------------------------------------------------

  function Enrolled(s: State, d: Client): State {
    if d !in s.devices then s.(devices := s.devices[d := Device(Pending, None, None)])
    else if s.devices[d].status == Revoked then s.(devices := s.devices[d := s.devices[d].(status := Pending)])
    else s
  }

  /** Recovery arms the device with a grant, except a revoked one, which is only enrolled again. */
  function Armed(s: State, d: Client): State {
    if d !in s.devices then s.(devices := s.devices[d := Device(Pending, Some(s.now), Some(s.now))])
    else
      var row := s.devices[d];
      var armed :=
        if row.status == Revoked then Device(Pending, None, Some(s.now))
        else Device(row.status, Some(s.now), Some(s.now));
      s.(devices := s.devices[d := armed])
  }

  // ---- Uploads ------------------------------------------------------------------------------------------

  function Others(active: seq<Client>, caller: Client): seq<Client> {
    if active == [] then []
    else (if active[0] == caller then [] else [active[0]]) + Others(active[1..], caller)
  }

  function ActiveAmong(s: State, ids: seq<Client>): set<Client> {
    set d | d in s.devices && d in ids && s.devices[d].status == Active
  }

  /** Whether the caller may upload at all, and if so whether only by its recovery grant. */
  function Admitted(s: State, caller: Client): Result<bool, Error> {
    if Is(s, caller, Active) then Ok(false)
    else if caller in s.devices && FreshAt(s.devices[caller].grantAt, s.now) then Ok(true)
    else Err(Forbidden)
  }

  function RemovalError(u: Upload, caller: Client, byGrant: bool): Option<Error> {
    if u.revoked == [] then None
    else if byGrant || caller in u.revoked then Some(Forbidden)
    else if |u.revoked| > MAX_REMOVED then Some(BadRequest)
    else if exists d :: d in u.revoked && d in u.active then Some(BadRequest)
    else
      match u.key
      case Absent => Some(Unauthorized)
      case Garbled => Some(BadRequest)
      case Wrong => Some(Unauthorized)
      case Right => None
  }

  function GrantError(s: State, u: Upload, caller: Client, stored: Watermarks): Option<Error> {
    if u.counter != stored.counter + 1 then Some(Conflict)
    else if u.epoch != stored.epoch then Some(Forbidden)
    else if caller !in u.active then Some(Forbidden)
    else
      var others := Others(u.active, caller);
      if others != [] && |ActiveAmong(s, others)| != |others| then Some(Forbidden) else None
  }

  /** The checks in the order they are made; the result says whether a grant is being spent. */
  function Checked(s: State, u: Upload): Result<bool, Error> {
    if !u.signed then Err(BadRequest)
    else if u.caller == None then Err(Forbidden)
    else
      var caller := u.caller.value;
      var admitted := Admitted(s, caller);
      if admitted.Err? then admitted
      else
        var byGrant := admitted.value;
        var removal := RemovalError(u, caller, byGrant);
        if removal.Some? then Err(removal.value)
        else if s.roster == None then Err(NotFound)
        else if u.counter <= s.roster.value.counter then Err(Conflict)
        else if u.epoch < s.roster.value.epoch then Err(Conflict)
        else
          var grant := if byGrant then GrantError(s, u, caller, s.roster.value) else None;
          if grant.Some? then Err(grant.value) else Ok(byGrant)
  }

  function Activate(devices: map<Client, Device>, ids: seq<Client>): map<Client, Device> {
    map d | d in devices :: if d in ids then devices[d].(status := Active, grantAt := None) else devices[d]
  }

  function Revoke(devices: map<Client, Device>, ids: seq<Client>): map<Client, Device> {
    map d | d in devices :: if d in ids then Device(Revoked, None, None) else devices[d]
  }

  function Unarm(devices: map<Client, Device>, d: Client): map<Client, Device> {
    if d in devices then devices[d := devices[d].(grantAt := None)] else devices
  }

  function Applied(s: State, u: Upload): State
    requires u.caller.Some?
  {
    s.(roster := Some(Watermarks(u.counter, u.epoch)),
       devices := Unarm(Revoke(Activate(s.devices, u.active), u.revoked), u.caller.value))
  }

  // ---- Password change ------------------------------------------------------------------------------------

  /** Without the current key, only a device that just recovered may change the password, once. */
  function MayChangePassword(s: State, caller: Option<Client>, key: AuthKey): Result<bool, Error> {
    if key == Garbled then Err(BadRequest)
    else if caller == None || !Is(s, caller.value, Active) then Err(Forbidden)
    else if key == Right then Ok(false)
    else if key == Absent && FreshAt(s.devices[caller.value].recoveredAt, s.now) then Ok(true)
    else Err(Unauthorized)
  }

  function Forget(devices: map<Client, Device>, d: Client): map<Client, Device> {
    if d in devices then devices[d := devices[d].(recoveredAt := None)] else devices
  }

  // ---- Runs -------------------------------------------------------------------------------------------------

  function At(s: State, e: Event): State { s.(now := e.at) }

  predicate Accepted(s: State, e: Event) {
    match e
    case Login(_, _, elsewhere) => !elsewhere
    case Recover(_, _, elsewhere) => !elsewhere
    case Put(_, u) => Checked(At(s, e), u).Ok?
    case ChangePassword(_, caller, key) => MayChangePassword(At(s, e), caller, key).Ok?
  }

  function Next(s: State, e: Event): State {
    var t := At(s, e);
    if !Accepted(s, e) then t
    else
      match e
      case Login(_, d, _) => Enrolled(t, d)
      case Recover(_, d, _) => Armed(t, d)
      case Put(_, u) => if u.caller.Some? then Applied(t, u) else t
      case ChangePassword(_, caller, _) =>
        if caller.Some? then t.(devices := Forget(t.devices, caller.value)) else t
  }

  /** The clock does not run backwards. */
  predicate CanRun(s: State, events: seq<Event>)
    decreases |events|
  {
    events == [] || (s.now <= events[0].at && CanRun(Next(s, events[0]), events[1..]))
  }

  function Run(s: State, events: seq<Event>): State
    decreases |events|
  {
    if events == [] then s else Run(Next(s, events[0]), events[1..])
  }

  // ---- What every request keeps --------------------------------------------------------------------------

  ghost predicate SomeoneActive(s: State) { exists d :: Is(s, d, Active) }

  /** Revoked rows hold no grant, and the account can still write its roster. */
  ghost predicate Inv(s: State) {
    && s.roster.Some?
    && (forall d :: Is(s, d, Revoked) ==> s.devices[d].grantAt == None)
    && SomeoneActive(s)
  }

  /** Signup leaves one active device and a roster. */
  ghost predicate SignedUp(s: State) {
    && s.roster.Some? && |s.devices| > 0
    && forall d :: d in s.devices ==> s.devices[d] == Device(Active, None, None)
  }

  lemma SignupKeeps(s: State)
    requires SignedUp(s)
    ensures Inv(s)
  {
    var d :| d in s.devices;
    assert Is(s, d, Active);
  }

  /** An accepted upload moves the counter up, never the epoch down, and leaves its caller active with
      its grant spent. */
  lemma UploadAdvances(s: State, e: Event)
    requires e.Put? && Accepted(s, e)
    ensures var t := Next(s, e); var caller := e.u.caller;
            && s.roster.Some? && t.roster == Some(Watermarks(e.u.counter, e.u.epoch))
            && t.roster.value.counter > s.roster.value.counter
            && t.roster.value.epoch >= s.roster.value.epoch
            && caller.Some? && Is(t, caller.value, Active) && t.devices[caller.value].grantAt == None
  {
  }

  lemma StepKeepsInv(s: State, e: Event)
    requires Inv(s)
    ensures Inv(Next(s, e))
  {
    hide Checked;
    var t := Next(s, e);
    var d :| Is(s, d, Active);
    if e.Put? && Accepted(s, e) {
      UploadAdvances(s, e);
      assert Is(t, e.u.caller.value, Active);
    } else {
      assert Is(t, d, Active);
    }
  }

  lemma {:induction false} RunKeepsInv(s: State, events: seq<Event>)
    requires Inv(s)
    ensures Inv(Run(s, events))
    decreases |events|
  {
    if events != [] {
      StepKeepsInv(s, events[0]);
      RunKeepsInv(Next(s, events[0]), events[1..]);
    }
  }

  /** From signup on, no run of requests leaves the account without an active device, or a removed
      device with a grant. */
  lemma NeverLockedOut(s: State, events: seq<Event>)
    requires SignedUp(s)
    ensures var t := Run(s, events);
            && t.roster.Some? && (exists d :: Is(t, d, Active))
            && forall d :: Is(t, d, Revoked) ==> t.devices[d].grantAt == None
  {
    SignupKeeps(s);
    RunKeepsInv(s, events);
  }

  // ---- Uploads over a run ------------------------------------------------------------------------------------

  lemma {:induction false} CounterNeverFalls(s: State, events: seq<Event>)
    requires s.roster.Some?
    ensures var t := Run(s, events);
            && t.roster.Some? && t.roster.value.counter >= s.roster.value.counter
            && t.roster.value.epoch >= s.roster.value.epoch
    decreases |events|
  {
    if events != [] {
      var e := events[0];
      if e.Put? && Accepted(s, e) { UploadAdvances(s, e); }
      CounterNeverFalls(Next(s, e), events[1..]);
    }
  }

  /** Once an upload has been accepted, no upload with its counter or an older one is ever accepted
      again, whoever sends it and whatever it contains. */
  lemma NoReplay(s: State, first: Event, between: seq<Event>, again: Event)
    requires first.Put? && Accepted(s, first) && again.Put? && again.u.counter <= first.u.counter
    ensures !Accepted(Run(Next(s, first), between), again)
  {
    UploadAdvances(s, first);
    CounterNeverFalls(Next(s, first), between);
  }

  // ---- Who activates whom ---------------------------------------------------------------------------------------

  lemma {:induction false} OthersAre(active: seq<Client>, caller: Client)
    ensures forall d :: d in Others(active, caller) <==> d in active && d != caller
  {
    if active != [] { OthersAre(active[1..], caller); }
  }

  ghost function Elements(ids: seq<Client>): set<Client> { set d | d in ids }

  lemma {:induction false} ElementsBound(ids: seq<Client>)
    ensures |Elements(ids)| <= |ids|
    ensures |Elements(ids)| == |ids| <==> forall i, k :: 0 <= i < k < |ids| ==> ids[i] != ids[k]
  {
    if ids == [] {
      assert Elements(ids) == {};
    } else {
      var rest := ids[1..];
      ElementsBound(rest);
      assert Elements(ids) == {ids[0]} + Elements(rest);
      assert forall d :: d in rest <==> exists k :: 0 < k < |ids| && ids[k] == d by {
        forall d | d in rest ensures exists k :: 0 < k < |ids| && ids[k] == d {
          var k :| 0 <= k < |rest| && rest[k] == d;
          assert ids[k + 1] == d;
        }
      }
      if |Elements(ids)| == |ids| {
        forall i, k | 0 <= i < k < |ids| ensures ids[i] != ids[k] {
          if i == 0 { assert ids[k] in rest; } else { assert rest[i - 1] != rest[k - 1]; }
        }
      }
      if forall i, k :: 0 <= i < k < |ids| ==> ids[i] != ids[k] {
        forall i, k | 0 <= i < k < |rest| ensures rest[i] != rest[k] {
          assert ids[i + 1] != ids[k + 1];
        }
      }
    }
  }

  lemma SubsetOfSameSize(a: set<Client>, b: set<Client>)
    requires a <= b && |a| == |b|
    ensures a == b
  {
    assert |b - a| == |b| - |a|;
  }

  /** The count of active rows matches the list exactly when the list names active devices only, each
      of them once. */
  lemma CountMatches(s: State, ids: seq<Client>)
    ensures |ActiveAmong(s, ids)| == |ids| <==>
            (forall d :: d in ids ==> Is(s, d, Active)) && (forall i, k :: 0 <= i < k < |ids| ==> ids[i] != ids[k])
  {
    var a, all := ActiveAmong(s, ids), Elements(ids);
    assert a <= all;
    assert |all - a| == |all| - |a|;
    ElementsBound(ids);
    if |a| == |ids| {
      SubsetOfSameSize(a, all);
      forall d | d in ids ensures Is(s, d, Active) { assert d in all; }
    }
    if forall d :: d in ids ==> Is(s, d, Active) {
      assert a == all;
    }
  }

  /** Which uploads a grant allows: the next counter, the same epoch, no removals, and naming the
      caller together with devices that are active already, none of them twice. */
  lemma GrantAllows(s: State, u: Upload)
    ensures Checked(s, u) == Ok(true) <==>
            && u.signed && u.caller.Some? && !Is(s, u.caller.value, Active) && u.caller.value in s.devices
            && FreshAt(s.devices[u.caller.value].grantAt, s.now)
            && u.revoked == [] && s.roster.Some?
            && u.counter == s.roster.value.counter + 1 && u.epoch == s.roster.value.epoch
            && u.caller.value in u.active
            && (forall d :: d in Others(u.active, u.caller.value) ==> Is(s, d, Active))
            && (forall i, k :: 0 <= i < k < |Others(u.active, u.caller.value)| ==>
                  Others(u.active, u.caller.value)[i] != Others(u.active, u.caller.value)[k])
  {
    if u.caller.Some? {
      CountMatches(s, Others(u.active, u.caller.value));
      assert |ActiveAmong(s, [])| == 0 by { CountMatches(s, []); }
    }
  }

  /** An upload by grant admits its caller and changes no other row's status. */
  lemma GrantChangesOnlyTheCaller(s: State, e: Event, d: Client)
    requires e.Put? && Checked(At(s, e), e.u) == Ok(true)
    ensures var t := Next(s, e);
            && t.roster.value.counter == s.roster.value.counter + 1 && t.roster.value.epoch == s.roster.value.epoch
            && Is(t, e.u.caller.value, Active)
            && (d != e.u.caller.value ==> (d in t.devices <==> d in s.devices))
            && (d != e.u.caller.value && d in s.devices ==> t.devices[d].status == s.devices[d].status)
  {
    hide Checked;
    GrantAllows(At(s, e), e.u);
    OthersAre(e.u.active, e.u.caller.value);
    if d in s.devices && d != e.u.caller.value && d in e.u.active {
      assert Is(At(s, e), d, Active);
    }
  }

  /** Every activation is named by an active device, or is the device spending its own fresh grant. */
  lemma ActivationsAreNamed(s: State, e: Event, d: Client)
    requires !Is(s, d, Active) && Is(Next(s, e), d, Active)
    ensures e.Put? && Accepted(s, e) && e.u.caller.Some? && d in e.u.active && d !in e.u.revoked
    ensures Is(s, e.u.caller.value, Active)
            || (e.u.caller.value == d && FreshAt(s.devices[d].grantAt, e.at) && Checked(At(s, e), e.u) == Ok(true)
                && Next(s, e).devices[d].grantAt == None)
  {
    hide Checked;
    assert e.Put? && Accepted(s, e);
    AcceptedUploads(At(s, e), e.u);
    var caller := e.u.caller.value;
    if !Is(s, caller, Active) {
      assert !Is(At(s, e), caller, Active);
      GrantAllows(At(s, e), e.u);
      if d != caller { GrantChangesOnlyTheCaller(s, e, d); }
    }
  }

  /** An accepted upload has a caller, which is active or spends a grant; a removal is an active
      caller's, with its current key, not of itself nor of a device it names active. */
  lemma AcceptedUploads(s: State, u: Upload)
    requires Checked(s, u).Ok?
    ensures u.caller.Some? && Checked(s, u) == Ok(!Is(s, u.caller.value, Active))
    ensures u.revoked != [] ==>
              && Is(s, u.caller.value, Active) && u.key == Right && |u.revoked| <= MAX_REMOVED
              && u.caller.value !in u.revoked && forall d :: d in u.revoked ==> d !in u.active
  {
  }

  /** Only a removal makes a device inactive, and a removed row loses its stamps. */
  lemma RemovalsAreAuthorized(s: State, e: Event, d: Client)
    requires Is(s, d, Active) && !Is(Next(s, e), d, Active)
    ensures e.Put? && Accepted(s, e) && d in e.u.revoked && d != e.u.caller.value && e.u.key == Right
    ensures Is(s, e.u.caller.value, Active) && Next(s, e).devices[d] == Device(Revoked, None, None)
  {
    hide Checked;
    assert e.Put? && Accepted(s, e);
    AcceptedUploads(At(s, e), e.u);
  }

  /** An active device's upload is accepted exactly if it moves the counter up and the epoch not down, and
      any removal in it comes with the current key, names at most so many devices, and neither the caller
      nor a device it names active. */
  lemma ActiveUploadAllowed(s: State, u: Upload)
    ensures Checked(s, u) == Ok(false) <==>
            && u.signed && u.caller.Some? && Is(s, u.caller.value, Active)
            && s.roster.Some? && u.counter > s.roster.value.counter && u.epoch >= s.roster.value.epoch
            && (u.revoked != [] ==>
                  && u.key == Right && |u.revoked| <= MAX_REMOVED && u.caller.value !in u.revoked
                  && forall d :: d in u.revoked ==> d !in u.active)
  {
  }

  /** What an accepted upload does to the row of any device: those on the removal list are revoked and lose
      both stamps, those named active are active without a grant, and of the others only the caller's row
      changes, which loses its grant. No row comes or goes. */
  lemma UploadEffect(s: State, e: Event, d: Client)
    requires e.Put? && Accepted(s, e)
    ensures var t, u := Next(s, e), e.u;
            && (d in t.devices <==> d in s.devices)
            && t.roster == Some(Watermarks(u.counter, u.epoch))
            && (d in s.devices ==>
                  var row := s.devices[d];
                  t.devices[d] ==
                    if d in u.revoked then Device(Revoked, None, None)
                    else if d in u.active then Device(Active, None, row.recoveredAt)
                    else if u.caller == Some(d) then Device(row.status, None, row.recoveredAt)
                    else row)
  {
    hide Checked;
    AcceptedUploads(At(s, e), e.u);
  }

  /** So over one accepted upload, a known device is removed if and only if it is on the removal list or was
      revoked and is not named active, and active if and only if it is named so or was so and is not removed. */
  lemma UploadDecides(s: State, e: Event, d: Client)
    requires e.Put? && Accepted(s, e) && d in s.devices
    ensures Is(Next(s, e), d, Revoked) <==> d in e.u.revoked || (Is(s, d, Revoked) && d !in e.u.active)
    ensures Is(Next(s, e), d, Active) <==> d !in e.u.revoked && (d in e.u.active || Is(s, d, Active))
  {
    hide Checked, Next, Accepted;
    UploadEffect(s, e, d);
  }

  /** What each refusal of an upload means. */
  lemma RefusalNamesItsCause(s: State, u: Upload)
    requires Checked(s, u).Err?
    ensures match Checked(s, u).error
            case BadRequest =>
              !u.signed || |u.revoked| > MAX_REMOVED || u.key == Garbled || exists d :: d in u.revoked && d in u.active
            case Unauthorized => u.revoked != [] && (u.key == Absent || u.key == Wrong)
            case NotFound => s.roster == None
            case Conflict =>
              && s.roster.Some?
              && (|| u.counter <= s.roster.value.counter || u.epoch < s.roster.value.epoch
                  || (!Is(s, u.caller.value, Active) && u.counter != s.roster.value.counter + 1))
            case Forbidden =>
              || u.caller.None? || !Is(s, u.caller.value, Active) || u.caller.value in u.revoked
  {
  }

  /** What a sign-in does to the rows. A login makes a new or revoked device pending. A recovery does so too
      and stamps the row: the waiver of the current password always, the grant unless it was revoked. */
  lemma SignInEffect(s: State, e: Event, d: Client)
    requires e.Login? || e.Recover?
    ensures var t := Next(s, e);
            && t.roster == s.roster
            && (e.elsewhere || d != e.d ==> RowOf(t, d) == RowOf(s, d))
            && (!e.elsewhere && d == e.d ==>
                  var was := RowOf(s, d);
                  var status := if was.None? || was.value.status == Revoked then Pending else was.value.status;
                  RowOf(t, d) == Some(
                    if e.Recover? then
                      Device(status, if was.Some? && was.value.status == Revoked then None else Some(e.at), Some(e.at))
                    else Device(status, if was.Some? then was.value.grantAt else None,
                                if was.Some? then was.value.recoveredAt else None)))
  {
  }

  ghost function RowOf(s: State, d: Client): Option<Device> {
    if d in s.devices then Some(s.devices[d]) else None
  }

  /** What is refused changes nothing. */
  lemma RefusedChangesNothing(s: State, e: Event)
    requires !Accepted(s, e)
    ensures Next(s, e) == s.(now := e.at)
  {
  }

  // ---- Password changes ------------------------------------------------------------------------------------------

  /** Who may change the password: an active device with the current key, or without any within the time
      that its last recovery waives it. */
  lemma PasswordChangeAllowed(s: State, at: nat, caller: Option<Client>, key: AuthKey)
    ensures Accepted(s, ChangePassword(at, caller, key)) <==>
            && caller.Some? && Is(s, caller.value, Active)
            && (key == Right || (key == Absent && FreshAt(Waiver(s, caller.value), at)))
  {
  }

  /** The stamp by which a device may go without the current password. */
  function Waiver(s: State, d: Client): Option<nat> {
    if d in s.devices then s.devices[d].recoveredAt else None
  }

  ghost predicate Recovers(s: State, e: Event, d: Client) { e.Recover? && e.d == d && !e.elsewhere }

  /** The device changes the password, or is removed. */
  ghost predicate UsesUp(s: State, e: Event, d: Client) {
    && Accepted(s, e)
    && ((e.ChangePassword? && e.caller == Some(d)) || (e.Put? && d in e.u.revoked))
  }

  lemma WaiverStep(s: State, e: Event, d: Client)
    ensures Waiver(Next(s, e), d) ==
            if Recovers(s, e, d) then Some(e.at) else if UsesUp(s, e, d) then None else Waiver(s, d)
  {
    hide Checked, MayChangePassword;
    if e.Put? && Accepted(s, e) {
      UploadEffect(s, e, d);
    }
  }

  /** The `j`-th event of the run is a recovery of the device, or uses its waiver up. */
  ghost predicate Touches(s: State, events: seq<Event>, d: Client, j: nat)
    requires j < |events|
  {
    Recovers(Run(s, events[..j]), events[j], d) || UsesUp(Run(s, events[..j]), events[j], d)
  }

  lemma {:induction false} RunSnoc(s: State, events: seq<Event>, e: Event)
    ensures Run(s, events + [e]) == Next(Run(s, events), e)
    decreases |events|
  {
    if events == [] {
      assert [e][1..] == [] && [] + [e] == [e];
    } else {
      assert (events + [e])[1..] == events[1..] + [e];
      RunSnoc(Next(s, events[0]), events[1..], e);
    }
  }

  /** Over any run, a device holds a waiver from time `t` exactly if it recovered then and has neither
      recovered again, changed the password nor been removed since; or held it from the start and nothing
      of that happened. */
  lemma {:induction false} WaiverIsLastRecovery(s: State, events: seq<Event>, d: Client, t: nat)
    ensures Waiver(Run(s, events), d) == Some(t) <==>
            || (exists i: nat :: i < |events| && Recovers(Run(s, events[..i]), events[i], d) && events[i].at == t
                               && forall j :: i < j < |events| ==> !Touches(s, events, d, j))
            || (Waiver(s, d) == Some(t) && forall j :: 0 <= j < |events| ==> !Touches(s, events, d, j))
    decreases |events|
  {
    if events != [] {
      var n := |events| - 1;
      var before, e := events[..n], events[n];
      assert events == before + [e];
      RunSnoc(s, before, e);
      WaiverStep(Run(s, before), e, d);
      WaiverIsLastRecovery(s, before, d, t);
      assert forall j :: 0 <= j < n ==> before[..j] == events[..j] && before[j] == events[j];
      assert forall j :: 0 <= j < n ==> Touches(s, before, d, j) == Touches(s, events, d, j);
      hide Recovers, UsesUp, Run, Waiver;
      assert Touches(s, events, d, n) <==> Recovers(Run(s, before), e, d) || UsesUp(Run(s, before), e, d);
    }
  }

  /** So from signup on, after any run: a device may change the password without the current one if and only
      if it is active and made, less than fifteen minutes before, a recovery since which it has neither
      changed the password nor been removed. */
  lemma KeylessChangeIff(s: State, events: seq<Event>, d: Client, at: nat)
    requires SignedUp(s)
    ensures var t := Run(s, events);
            Accepted(t, ChangePassword(at, Some(d), Absent)) <==>
              Is(t, d, Active) &&
              exists i: nat :: i < |events| && Recovers(Run(s, events[..i]), events[i], d)
                               && at < events[i].at + FRESH_FOR
                               && forall j :: i < j < |events| ==> !Touches(s, events, d, j)
  {
    hide Run, Recovers, Touches, Accepted, UsesUp;
    var t := Run(s, events);
    PasswordChangeAllowed(t, at, Some(d), Absent);
    if Waiver(t, d).Some? {
      WaiverIsLastRecovery(s, events, d, Waiver(t, d).value);
    }
    forall i: nat | i < |events| && Recovers(Run(s, events[..i]), events[i], d)
                    && forall j :: i < j < |events| ==> !Touches(s, events, d, j)
      ensures Waiver(t, d) == Some(events[i].at)
    {
      WaiverIsLastRecovery(s, events, d, events[i].at);
    }
  }

  ghost predicate ChangesWithoutKey(s: State, e: Event, d: Client) {
    e.ChangePassword? && e.caller == Some(d) && e.key == Absent && Accepted(s, e)
  }

  ghost function KeylessChanges(s: State, events: seq<Event>, d: Client): nat
    decreases |events|
  {
    if events == [] then 0
    else (if ChangesWithoutKey(s, events[0], d) then 1 else 0) + KeylessChanges(Next(s, events[0]), events[1..], d)
  }

  ghost function Recoveries(s: State, events: seq<Event>, d: Client): nat
    decreases |events|
  {
    if events == [] then 0
    else (if Recovers(s, events[0], d) then 1 else 0) + Recoveries(Next(s, events[0]), events[1..], d)
  }

  function Waived(s: State, d: Client): nat { if Waiver(s, d).Some? then 1 else 0 }

  /** A waiver is good for one change: over any run, a device changes the password without the current one at
      most as often as it recovers, besides the waiver it held at the start. */
  lemma {:induction false} WaiversAreOneShot(s: State, events: seq<Event>, d: Client)
    ensures KeylessChanges(s, events, d) + Waived(Run(s, events), d) <= Waived(s, d) + Recoveries(s, events, d)
    decreases |events|
  {
    if events != [] {
      hide Next, Accepted, Waiver;
      WaiverStep(s, events[0], d);
      if ChangesWithoutKey(s, events[0], d) {
        PasswordChangeAllowed(s, events[0].at, Some(d), Absent);
      }
      WaiversAreOneShot(Next(s, events[0]), events[1..], d);
    }
  }

  // ---- Recovery grants ---------------------------------------------------------------------------------------------

  ghost predicate SpendsGrant(s: State, e: Event, d: Client) {
    e.Put? && e.u.caller == Some(d) && Checked(At(s, e), e.u) == Ok(true)
  }

  ghost predicate Arms(s: State, e: Event, d: Client) {
    e.Recover? && e.d == d && !e.elsewhere && !Is(s, d, Revoked)
  }

  ghost function Spent(s: State, events: seq<Event>, d: Client): nat
    decreases |events|
  {
    if events == [] then 0
    else (if SpendsGrant(s, events[0], d) then 1 else 0) + Spent(Next(s, events[0]), events[1..], d)
  }

  ghost function Armings(s: State, events: seq<Event>, d: Client): nat
    decreases |events|
  {
    if events == [] then 0
    else (if Arms(s, events[0], d) then 1 else 0) + Armings(Next(s, events[0]), events[1..], d)
  }

  function Holds(s: State, d: Client): nat {
    if d in s.devices && s.devices[d].grantAt.Some? then 1 else 0
  }

  lemma GrantStep(s: State, e: Event, d: Client)
    ensures (if SpendsGrant(s, e, d) then 1 else 0) + Holds(Next(s, e), d)
            <= Holds(s, d) + (if Arms(s, e, d) then 1 else 0)
  {
    hide Checked;
    if e.Put? && Accepted(s, e) {
      if SpendsGrant(s, e, d) { GrantAllows(At(s, e), e.u); }
    }
  }

  /** A grant is good for one upload: over any run, a device spends at most one grant per recovery
      that it made while not revoked, besides the one it held at the start. */
  lemma {:induction false} GrantsAreOneShot(s: State, events: seq<Event>, d: Client)
    ensures Spent(s, events, d) + Holds(Run(s, events), d) <= Holds(s, d) + Armings(s, events, d)
    decreases |events|
  {
    if events != [] {
      GrantStep(s, events[0], d);
      GrantsAreOneShot(Next(s, events[0]), events[1..], d);
    }
  }

  /** The upload by which a device admits itself: the next counter, the same epoch, naming only it. */
  function OwnUpload(w: Watermarks, d: Client): Upload {
    Upload(true, Some(d), w.counter + 1, w.epoch, [d], [], Absent)
  }

  lemma OwnUploadSpends(s: State, at: nat, w: Watermarks, d: Client)
    requires s.roster == Some(w)
    ensures SpendsGrant(s, Put(at, OwnUpload(w, d)), d) <==>
            d in s.devices && s.devices[d].status != Active && FreshAt(s.devices[d].grantAt, at)
  {
    hide Checked;
    assert Others([d], d) == Others([], d) == [];
    GrantAllows(At(s, Put(at, OwnUpload(w, d))), OwnUpload(w, d));
  }

  /** What a recovery is worth, exactly: while it is fresh the device can admit itself if and only if
      its row was neither revoked nor active when it recovered. */
  lemma RecoveryAdmitsIff(s: State, d: Client, at: nat, later: nat)
    requires Inv(s) && at <= later < at + FRESH_FOR
    ensures SpendsGrant(Next(s, Recover(at, d, false)), Put(later, OwnUpload(s.roster.value, d)), d) <==>
            !Is(s, d, Revoked) && !Is(s, d, Active)
  {
    hide SpendsGrant;
    OwnUploadSpends(Next(s, Recover(at, d, false)), later, s.roster.value, d);
  }

  /** So the recovery of a row that is still revoked is worth nothing: the next upload is refused,
      whatever it says. */
  lemma OneRecoveryIsNotEnough(s: State, recover: Event, put: Event, d: Client)
    requires Inv(s) && Is(s, d, Revoked)
    requires recover.Recover? && recover.d == d && put.Put? && put.u.caller == Some(d)
    ensures !Accepted(Next(s, recover), put)
  {
  }

  /** But the row need not stay revoked. Recovering twice is enough, from every state: the first
      recovery makes the row pending, and the second finds it pending and arms it. The promise that a
      removed device gets no grant and is only admitted again by approval does not hold of the code. */
  lemma RemovedDeviceReadmitsItself(s: State, d: Client)
    requires Inv(s) && Is(s, d, Revoked)
    ensures var recover := Recover(s.now, d, false);
            var events := [recover, recover, Put(s.now, OwnUpload(s.roster.value, d))];
            CanRun(s, events) && Is(Run(s, events), d, Active)
  {
    ReadmittedAfter(s, Recover(s.now, d, false), d);
  }

  /** And so is one password login before one recovery. */
  lemma LoginThenRecoveryReadmits(s: State, d: Client)
    requires Inv(s) && Is(s, d, Revoked)
    ensures var events := [Login(s.now, d, false), Recover(s.now, d, false), Put(s.now, OwnUpload(s.roster.value, d))];
            CanRun(s, events) && Is(Run(s, events), d, Active)
  {
    ReadmittedAfter(s, Login(s.now, d, false), d);
  }

  /** Any sign-in of a removed device makes its row pending; a recovery after it then readmits. */
  lemma ReadmittedAfter(s: State, signIn: Event, d: Client)
    requires Inv(s) && Is(s, d, Revoked)
    requires signIn == Login(s.now, d, false) || signIn == Recover(s.now, d, false)
    ensures var events := [signIn, Recover(s.now, d, false), Put(s.now, OwnUpload(s.roster.value, d))];
            CanRun(s, events) && Is(Run(s, events), d, Active)
  {
    hide Checked;
    var recover, put := Recover(s.now, d, false), Put(s.now, OwnUpload(s.roster.value, d));
    var s1 := Next(s, signIn);
    StepKeepsInv(s, signIn);
    RecoveryAdmitsIff(s1, d, s.now, s.now);
    var s2 := Next(s1, recover);
    UploadAdvances(s2, put);
    ThreeSteps(s, signIn, recover, put);
  }

  lemma ThreeSteps(s: State, a: Event, b: Event, c: Event)
    ensures Run(s, [a, b, c]) == Next(Next(Next(s, a), b), c)
    ensures CanRun(s, [a, b, c]) <==> s.now <= a.at && Next(s, a).now <= b.at && Next(Next(s, a), b).now <= c.at
  {
    assert [a, b, c][1..] == [b, c] && [b, c][1..] == [c] && [c][1..] == [];
    var t := Next(Next(Next(s, a), b), c);
    assert CanRun(t, []);
    assert CanRun(Next(Next(s, a), b), [c]) <==> Next(Next(s, a), b).now <= c.at;
    assert CanRun(Next(s, a), [b, c]) <==> Next(s, a).now <= b.at && CanRun(Next(Next(s, a), b), [c]);
    assert Run(t, []) == t;
    assert Run(Next(Next(s, a), b), [c]) == t;
    assert Run(Next(s, a), [b, c]) == t;
  }

  /** Exactly what it takes: a device without a grant spends one only after it recovered at a time
      when its row was not revoked. */
  lemma GrantNeedsLiveRecovery(s: State, events: seq<Event>, e: Event, d: Client)
    requires Holds(s, d) == 0 && SpendsGrant(Run(s, events), e, d)
    ensures Armings(s, events, d) > 0
  {
    hide Checked;
    GrantsAreOneShot(s, events, d);
    GrantAllows(At(Run(s, events), e), e.u);
  }

  // ---- The rows ----------------------------------------------------------------------------------------------------

  lemma ActiveSomewhere(s: State, d: Client)
    requires Is(s, d, Active)
    ensures SomeoneActive(s)
  {
  }

  /** The account's roster and device rows, and its refresh tokens. */
  class Account {
    var roster: Option<Watermarks>
    var devices: map<Client, Device>
    const sessions: Sessions.RefreshTokens
    ghost var st: State

    ghost predicate Valid()
      reads this, sessions
    {
      st.roster == roster && st.devices == devices && Inv(st) && sessions.Valid()
    }

    /** Signup: one active device and the first roster. */
    constructor (d: Client, counter: int, epoch: int)
      ensures Valid() && fresh(sessions) && SignedUp(st) && devices.Keys == {d}
      ensures roster == Some(Watermarks(counter, epoch)) && sessions.st == Sessions.INIT
    {
      roster, devices := Some(Watermarks(counter, epoch)), map[d := Device(Active, None, None)];
      sessions := new Sessions.RefreshTokens();
      st := State(0, Some(Watermarks(counter, epoch)), map[d := Device(Active, None, None)]);
      new;
      ActiveSomewhere(st, d);
    }

    /** A password login; with a proof of possession of a device key it enrols the device, without one
        it only issues tokens that name no device. */
    method LoginFinish(at: nat, device: Option<Client>, elsewhere: bool, jti: Sessions.Jti, family: Sessions.Family)
      returns (error: Option<Error>)
      requires Valid() && Sessions.CanDo(sessions.st, Sessions.Issue(jti, family, device))
      modifies this, sessions
      ensures Valid()
      ensures st == if device.Some? then Next(old(st), Login(at, device.value, elsewhere)) else old(st)
      ensures error == if device.Some? && elsewhere then Some(Conflict) else None
      ensures sessions.st == if error.Some? then old(sessions.st)
                             else Sessions.Next(old(sessions.st), Sessions.Issue(jti, family, device))
    {
      error := None;
      if device == None {
        sessions.IssuePair(jti, family, None);
        return;
      }
      var d := device.value;
      StepKeepsInv(st, Login(at, d, elsewhere));
      st := Next(st, Login(at, d, elsewhere));
      if elsewhere { return Some(Conflict); }
      if d !in devices {
        devices := devices[d := Device(Pending, None, None)];
      } else if devices[d].status == Revoked {
        devices := devices[d := devices[d].(status := Pending)];
      }
      sessions.IssuePair(jti, family, Some(d));
      error := None;
    }

    /** A sign-in with the recovery code; with a proof of possession of a device key it enrols and arms
        the device, without one it only issues tokens that name no device. */
    method RecoverDevice(at: nat, device: Option<Client>, elsewhere: bool, jti: Sessions.Jti, family: Sessions.Family)
      returns (error: Option<Error>)
      requires Valid() && Sessions.CanDo(sessions.st, Sessions.Issue(jti, family, device))
      modifies this, sessions
      ensures Valid()
      ensures st == if device.Some? then Next(old(st), Recover(at, device.value, elsewhere)) else old(st)
      ensures error == if device.Some? && elsewhere then Some(Conflict) else None
      ensures sessions.st == if error.Some? then old(sessions.st)
                             else Sessions.Next(old(sessions.st), Sessions.Issue(jti, family, device))
    {
      error := None;
      if device == None {
        sessions.IssuePair(jti, family, None);
        return;
      }
      var d := device.value;
      StepKeepsInv(st, Recover(at, d, elsewhere));
      st := Next(st, Recover(at, d, elsewhere));
      if elsewhere { return Some(Conflict); }
      if d !in devices {
        devices := devices[d := Device(Pending, Some(at), Some(at))];
      } else {
        var row := devices[d];
        var status := if row.status == Revoked then Pending else row.status;
        var grant := if row.status == Revoked then None else Some(at);
        devices := devices[d := Device(status, grant, Some(at))];
      }
      sessions.IssuePair(jti, family, Some(d));
      error := None;
    }

    /** Upload a roster. */
    method PutRoster(at: nat, u: Upload) returns (r: Result<Watermarks, Error>)
      requires Valid()
      modifies this, sessions
      ensures Valid() && st == Next(old(st), Put(at, u))
      ensures r == match Checked(At(old(st), Put(at, u)), u)
                   case Ok(_) => Ok(Watermarks(u.counter, u.epoch))
                   case Err(e) => Err(e)
      ensures sessions.st == if r.Ok? && u.revoked != []
                             then Sessions.Next(old(sessions.st), Sessions.RemoveDevices(set d | d in u.revoked))
                             else old(sessions.st)
    {
      ghost var now := At(st, Put(at, u));
      StepKeepsInv(st, Put(at, u));
      st := Next(st, Put(at, u));
      if !u.signed { return Err(BadRequest); }
      if u.caller == None { return Err(Forbidden); }
      var caller := u.caller.value;
      var current := roster;
      var byGrant;
      if caller in devices && devices[caller].status == Active {
        byGrant := false;
      } else if caller in devices && FreshAt(devices[caller].grantAt, at) {
        byGrant := true;
      } else {
        return Err(Forbidden);
      }
      if u.revoked != [] {
        if byGrant || caller in u.revoked { return Err(Forbidden); }
        if |u.revoked| > MAX_REMOVED { return Err(BadRequest); }
        if exists d :: d in u.revoked && d in u.active { return Err(BadRequest); }
        if u.key == Absent { return Err(Unauthorized); }
        if u.key == Garbled { return Err(BadRequest); }
        if u.key == Wrong { return Err(Unauthorized); }
      }
      if current == None { return Err(NotFound); }
      var stored := current.value;
      if u.counter <= stored.counter { return Err(Conflict); }
      if u.epoch < stored.epoch { return Err(Conflict); }
      if byGrant {
        if u.counter != stored.counter + 1 { return Err(Conflict); }
        if u.epoch != stored.epoch { return Err(Forbidden); }
        if caller !in u.active { return Err(Forbidden); }
        var others := Others(u.active, caller);
        if others != [] {
          var alreadyActive := set d | d in devices && d in others && devices[d].status == Active;
          assert alreadyActive == ActiveAmong(now, others);
          if |alreadyActive| != |others| { return Err(Forbidden); }
        }
      }
      Write(u, caller);
      if u.revoked != [] {
        sessions.RevokeRemoved(set d | d in u.revoked);
      }
      r := Ok(Watermarks(u.counter, u.epoch));
    }

    /** The updates of an accepted upload, in order. */
    method Write(u: Upload, caller: Client)
      modifies this`roster, this`devices
      ensures roster == Some(Watermarks(u.counter, u.epoch))
      ensures devices == Unarm(Revoke(Activate(old(devices), u.active), u.revoked), caller)
    {
      roster := Some(Watermarks(u.counter, u.epoch));
      if u.active != [] {
        devices := map d | d in devices ::
          if d in u.active then devices[d].(status := Active, grantAt := None) else devices[d];
      }
      assert devices == Activate(old(devices), u.active);
      if u.revoked != [] {
        devices := map d | d in devices :: if d in u.revoked then Device(Revoked, None, None) else devices[d];
      }
      assert devices == Revoke(Activate(old(devices), u.active), u.revoked);
      if caller in devices && devices[caller].grantAt.Some? {
        devices := devices[caller := devices[caller].(grantAt := None)];
      }
    }

    /** Change the password; every other device is signed out. */
    method PutPassword(at: nat, caller: Option<Client>, key: AuthKey) returns (error: Option<Error>)
      requires Valid()
      modifies this, sessions
      ensures Valid() && st == Next(old(st), ChangePassword(at, caller, key))
      ensures var may := MayChangePassword(At(old(st), ChangePassword(at, caller, key)), caller, key);
              && error == (match may case Ok(_) => None case Err(e) => Some(e))
              && sessions.st == (if may.Ok? && caller.Some?
                                 then Sessions.Next(old(sessions.st), Sessions.ChangePassword(caller.value))
                                 else old(sessions.st))
      ensures var rows := old(devices);
              var active := caller.Some? && caller.value in rows && rows[caller.value].status == Active;
              var waived := active && FreshAt(rows[caller.value].recoveredAt, at);
              && (error == None <==> active && (key == Right || (key == Absent && waived)))
              && (error == Some(BadRequest) <==> key == Garbled)
              && (error == Some(Forbidden) <==> key != Garbled && !active)
              && (error == Some(Unauthorized) <==> active && (key == Wrong || (key == Absent && !waived)))
              && devices == (if error == None
                             then rows[caller.value := rows[caller.value].(recoveredAt := None)] else rows)
    {
      StepKeepsInv(st, ChangePassword(at, caller, key));
      st := Next(st, ChangePassword(at, caller, key));
      if key == Garbled { return Some(BadRequest); }
      if caller == None || caller.value !in devices || devices[caller.value].status != Active {
        return Some(Forbidden);
      }
      var d := caller.value;
      if key == Absent {
        if !FreshAt(devices[d].recoveredAt, at) { return Some(Unauthorized); }
        devices := devices[d := devices[d].(recoveredAt := None)];
      } else if key == Wrong {
        return Some(Unauthorized);
      }
      sessions.RevokeOtherDevices(d);
      devices := devices[d := devices[d].(recoveredAt := None)];
      error := None;
    }
  }
}
