/** Refresh-token families (section 4.14 of RFC 9700): rotation with reuse detection, and the two
    bulk revocations, a password change and the removal of devices. One tenant's rows; each request
    is one step. Verifying a token's signature and expiry is a boolean. */
module Sessions {
  import opened Wrappers

  type Jti = nat
  type Family = nat
  type Client = nat

  /** A row of the token table. */
  datatype Token = Token(family: Family, client: Option<Client>, rotated: bool, revoked: bool, replacedBy: Option<Jti>)

  /** `chains` is history, the tokens minted in each family in order; so is `redeemed`, the tokens
      that were exchanged for a new one, in order. */
  datatype State = State(tokens: map<Jti, Token>, chains: map<Family, seq<Jti>>, redeemed: seq<Jti>)

  datatype Event =
    | Issue(jti: Jti, family: Family, client: Option<Client>)
    | Refresh(verified: bool, jti: Jti, newJti: Jti)
    | ChangePassword(caller: Client)
    | RemoveDevices(clients: set<Client>)

  const INIT := State(map[], map[], [])

  /** Identifiers of new rows and families are fresh. */
  predicate CanDo(s: State, e: Event) {
    match e
    case Issue(jti, family, _) => jti !in s.tokens && family !in s.chains
    case Refresh(_, _, newJti) => newJti !in s.tokens
    case _ => true
  }

  function RevokeFamily(tokens: map<Jti, Token>, family: Family): map<Jti, Token> {
    map j | j in tokens :: if tokens[j].family == family then tokens[j].(revoked := true) else tokens[j]
  }

  /** Every token that is not the caller's, those without a device included. */
  function RevokeOthers(tokens: map<Jti, Token>, caller: Client): map<Jti, Token> {
    map j | j in tokens :: if tokens[j].client != Some(caller) then tokens[j].(revoked := true) else tokens[j]
  }

  function RevokeClients(tokens: map<Jti, Token>, clients: set<Client>): map<Jti, Token> {
    map j | j in tokens ::
      if tokens[j].client.Some? && tokens[j].client.value in clients then tokens[j].(revoked := true) else tokens[j]
  }

  /** Whether a presented token is exchanged. */
  predicate Grants(s: State, verified: bool, jti: Jti) {
    verified && jti in s.tokens && !s.tokens[jti].revoked && !s.tokens[jti].rotated
  }

  function Next(s: State, e: Event): State {
    match e
    case Issue(jti, family, client) =>
      s.(tokens := s.tokens[jti := Token(family, client, false, false, None)], chains := s.chains[family := [jti]])
    case Refresh(verified, jti, newJti) =>
      if !verified || jti !in s.tokens then s
      else
        var t := s.tokens[jti];
        if t.revoked || t.rotated then s.(tokens := RevokeFamily(s.tokens, t.family))
        else
          var spent := s.tokens[jti := t.(rotated := true, replacedBy := Some(newJti))];
          s.(tokens := spent[newJti := Token(t.family, t.client, false, false, None)],
             chains := if t.family in s.chains then s.chains[t.family := s.chains[t.family] + [newJti]] else s.chains,
             redeemed := s.redeemed + [jti])
    case ChangePassword(caller) => s.(tokens := RevokeOthers(s.tokens, caller))
    case RemoveDevices(clients) => s.(tokens := RevokeClients(s.tokens, clients))
  }

  predicate CanRun(s: State, events: seq<Event>)
    decreases |events|
  {
    events == [] || (CanDo(s, events[0]) && CanRun(Next(s, events[0]), events[1..]))
  }

  function Run(s: State, events: seq<Event>): State
    decreases |events|
  {
    if events == [] then s else Run(Next(s, events[0]), events[1..])
  }

  // ---- Families are linear and die whole ------------------------------------------------------------

  /** Token `j` is entry `i` of its family's chain: all entries but the last are rotated, each into the
      next one. */
  ghost predicate Linked(tokens: map<Jti, Token>, chain: seq<Jti>, family: Family, i: nat) {
    && i < |chain| && chain[i] in tokens
    && var t := tokens[chain[i]];
       && t.family == family
       && t.rotated == (i + 1 < |chain|)
       && t.replacedBy == (if i + 1 < |chain| then Some(chain[i + 1]) else None)
  }

  ghost predicate Linear(s: State) {
    && (forall f, i :: f in s.chains && 0 <= i < |s.chains[f]| ==> Linked(s.tokens, s.chains[f], f, i))
    && (forall f :: f in s.chains ==> s.chains[f] != [])
    && (forall f, i, k :: f in s.chains && 0 <= i < k < |s.chains[f]| ==> s.chains[f][i] != s.chains[f][k])
    && (forall j :: j in s.tokens ==> s.tokens[j].family in s.chains && j in s.chains[s.tokens[j].family])
  }

  /** Tokens of one family stand and fall together, and belong to one device. */
  ghost predicate Whole(s: State) {
    forall j, k :: j in s.tokens && k in s.tokens && s.tokens[j].family == s.tokens[k].family ==>
      s.tokens[j].revoked == s.tokens[k].revoked && s.tokens[j].client == s.tokens[k].client
  }

  /** Each token is exchanged at most once, and `rotated` records it. */
  ghost predicate SpentOnce(s: State) {
    && (forall i, k :: 0 <= i < k < |s.redeemed| ==> s.redeemed[i] != s.redeemed[k])
    && (forall j :: j in s.redeemed <==> j in s.tokens && s.tokens[j].rotated)
  }

  ghost predicate Inv(s: State) { Linear(s) && Whole(s) && SpentOnce(s) }

  lemma IssueKeepsLinear(s: State, jti: Jti, family: Family, client: Option<Client>)
    requires Linear(s) && CanDo(s, Issue(jti, family, client))
    ensures Linear(Next(s, Issue(jti, family, client)))
  {
    var t := Next(s, Issue(jti, family, client));
    forall f, i | f in t.chains && 0 <= i < |t.chains[f]| ensures Linked(t.tokens, t.chains[f], f, i) {
      if f != family { assert Linked(s.tokens, s.chains[f], f, i); }
    }
  }

  lemma IssueKeepsInv(s: State, jti: Jti, family: Family, client: Option<Client>)
    requires Inv(s) && CanDo(s, Issue(jti, family, client))
    ensures Inv(Next(s, Issue(jti, family, client)))
  {
    IssueKeepsLinear(s, jti, family, client);
    var t := Next(s, Issue(jti, family, client));
    assert forall j :: j in s.tokens ==> s.tokens[j].family != family;
    hide Linear;
    assert Whole(t) && SpentOnce(t);
  }

  /** Revoking tokens changes nothing about the chains. */
  lemma RevocationKeepsLinear(s: State, t: State)
    requires Linear(s) && SpentOnce(s) && t.chains == s.chains && t.redeemed == s.redeemed
    requires t.tokens.Keys == s.tokens.Keys
    requires forall j :: j in s.tokens ==> t.tokens[j] == s.tokens[j].(revoked := t.tokens[j].revoked)
    ensures Linear(t) && SpentOnce(t)
  {
    forall f, i | f in t.chains && 0 <= i < |t.chains[f]| ensures Linked(t.tokens, t.chains[f], f, i) {
      assert Linked(s.tokens, s.chains[f], f, i);
    }
    forall j | j in t.tokens ensures t.tokens[j].family in t.chains && j in t.chains[t.tokens[j].family] {
      assert j in s.tokens;
    }
    forall j ensures j in t.redeemed <==> j in t.tokens && t.tokens[j].rotated {
      assert j in s.redeemed <==> j in s.tokens && s.tokens[j].rotated;
    }
  }

  lemma RotationKeepsLinear(s: State, jti: Jti, newJti: Jti)
    requires Linear(s) && Grants(s, true, jti) && newJti !in s.tokens
    ensures Linear(Next(s, Refresh(true, jti, newJti)))
  {
    var t := Next(s, Refresh(true, jti, newJti));
    var family := s.tokens[jti].family;
    var chain := s.chains[family];
    var at :| 0 <= at < |chain| && chain[at] == jti;
    assert Linked(s.tokens, chain, family, at);
    forall f, i | f in t.chains && 0 <= i < |t.chains[f]| ensures Linked(t.tokens, t.chains[f], f, i) {
      if i < |s.chains[f]| {
        assert Linked(s.tokens, s.chains[f], f, i);
      }
    }
    forall f, i, k | f in t.chains && 0 <= i < k < |t.chains[f]| ensures t.chains[f][i] != t.chains[f][k] {
      if f == family {
        assert Linked(s.tokens, chain, f, i);
      }
    }
    forall j | j in t.tokens ensures t.tokens[j].family in t.chains && j in t.chains[t.tokens[j].family] {
      if j == newJti { assert t.chains[family][|chain|] == newJti; }
    }
  }

  lemma RotationKeepsRest(s: State, jti: Jti, newJti: Jti)
    requires Whole(s) && SpentOnce(s) && Grants(s, true, jti) && newJti !in s.tokens
    ensures Whole(Next(s, Refresh(true, jti, newJti))) && SpentOnce(Next(s, Refresh(true, jti, newJti)))
  {
    var t := Next(s, Refresh(true, jti, newJti));
    forall j ensures j in t.redeemed <==> j in t.tokens && t.tokens[j].rotated {
      assert j in t.redeemed <==> j in s.redeemed || j == jti;
      assert j in s.redeemed <==> j in s.tokens && s.tokens[j].rotated;
    }
  }

  /** Every request keeps families linear, whole and spent at most once. */
  lemma StepKeepsInv(s: State, e: Event)
    requires Inv(s) && CanDo(s, e)
    ensures Inv(Next(s, e))
  {
    hide Linear, SpentOnce;
    match e
    case Issue(jti, family, client) => IssueKeepsInv(s, jti, family, client);
    case Refresh(verified, jti, newJti) =>
      if Grants(s, verified, jti) {
        RotationKeepsLinear(s, jti, newJti);
        RotationKeepsRest(s, jti, newJti);
      } else {
        RevocationKeepsLinear(s, Next(s, e));
      }
    case ChangePassword(_) => RevocationKeepsLinear(s, Next(s, e));
    case RemoveDevices(_) => RevocationKeepsLinear(s, Next(s, e));
  }

  lemma {:induction false} RunKeepsInv(s: State, events: seq<Event>)
    requires Inv(s) && CanRun(s, events)
    ensures Inv(Run(s, events))
    decreases |events|
  {
    if events != [] {
      StepKeepsInv(s, events[0]);
      RunKeepsInv(Next(s, events[0]), events[1..]);
    }
  }

  /** The one token of a family that may still be exchanged is the end of its chain. */
  lemma OnlyTheEndIsLive(s: State, jti: Jti)
    requires Inv(s) && jti in s.tokens
    ensures var chain := s.chains[s.tokens[jti].family];
            && (Grants(s, true, jti) ==> jti == chain[|chain| - 1])
            && forall k :: (k in s.tokens && s.tokens[k].family == s.tokens[jti].family
                            && Grants(s, true, k) && Grants(s, true, jti)) ==> k == jti
  {
    var f := s.tokens[jti].family;
    forall k | k in s.tokens && s.tokens[k].family == f && Grants(s, true, k)
      ensures k == s.chains[f][|s.chains[f]| - 1]
    {
      var i :| 0 <= i < |s.chains[f]| && s.chains[f][i] == k;
      assert Linked(s.tokens, s.chains[f], f, i);
    }
  }

  ghost predicate Dead(s: State, family: Family) {
    family in s.chains && forall j :: j in s.tokens && s.tokens[j].family == family ==> s.tokens[j].revoked
  }

  /** One revoked token means a dead family. */
  lemma RevokedMeansDead(s: State, jti: Jti)
    requires Inv(s) && jti in s.tokens && s.tokens[jti].revoked
    ensures Dead(s, s.tokens[jti].family)
  {
  }

  lemma StepKeepsDead(s: State, e: Event, family: Family)
    requires Inv(s) && CanDo(s, e) && Dead(s, family)
    ensures Dead(Next(s, e), family) && Next(s, e).chains[family] == s.chains[family]
  {
  }

  /** No token is ever minted again in a dead family, and none of its tokens is exchanged. */
  lemma {:induction false} DeadStaysDead(s: State, events: seq<Event>, family: Family)
    requires Inv(s) && CanRun(s, events) && Dead(s, family)
    ensures var t := Run(s, events);
            && Dead(t, family) && t.chains[family] == s.chains[family]
            && forall j :: j in t.tokens && t.tokens[j].family == family ==> !Grants(t, true, j)
    decreases |events|
  {
    hide Inv, CanDo;
    if events != [] {
      StepKeepsDead(s, events[0], family);
      StepKeepsInv(s, events[0]);
      DeadStaysDead(Next(s, events[0]), events[1..], family);
    }
  }

  /** Rows are never deleted, nor moved to another family, and what is spent stays spent. */
  lemma {:induction false} RowsStay(s: State, events: seq<Event>, jti: Jti)
    requires CanRun(s, events) && jti in s.tokens
    ensures var t := Run(s, events);
            && jti in t.tokens && t.tokens[jti].family == s.tokens[jti].family
            && (s.tokens[jti].rotated ==> t.tokens[jti].rotated)
    decreases |events|
  {
    if events != [] {
      RowsStay(Next(s, events[0]), events[1..], jti);
    }
  }

  /** Reuse detection: when a token is presented a second time, by whomever and whatever happened in
      between, the exchange is refused and the whole family is dead. */
  lemma SecondUseKillsTheFamily(s: State, jti: Jti, newJti: Jti, between: seq<Event>, again: Jti)
    requires Inv(s) && Grants(s, true, jti) && newJti !in s.tokens
    requires CanRun(Next(s, Refresh(true, jti, newJti)), between)
    ensures var t := Run(Next(s, Refresh(true, jti, newJti)), between);
            && !Grants(t, true, jti)
            && (again !in t.tokens ==>
                  var u := Next(t, Refresh(true, jti, again));
                  Dead(u, s.tokens[jti].family) && again !in u.tokens
                  && newJti in u.tokens && u.tokens[newJti].revoked)
  {
    var first := Next(s, Refresh(true, jti, newJti));
    StepKeepsInv(s, Refresh(true, jti, newJti));
    RunKeepsInv(first, between);
    RowsStay(first, between, jti);
    RowsStay(first, between, newJti);
  }

  /** A password change leaves exactly the caller's own families able to go on. */
  lemma PasswordChangeSparesTheCaller(s: State, caller: Client, jti: Jti)
    requires Inv(s) && jti in s.tokens
    ensures var t := Next(s, ChangePassword(caller));
            && (s.tokens[jti].client != Some(caller) ==> Dead(t, s.tokens[jti].family))
            && (s.tokens[jti].client == Some(caller) ==> t.tokens[jti] == s.tokens[jti])
  {
  }

  /** A removal ends every family of the removed devices, and no other. */
  lemma RemovalEndsFamilies(s: State, clients: set<Client>, jti: Jti)
    requires Inv(s) && jti in s.tokens
    ensures var t := Next(s, RemoveDevices(clients));
            if s.tokens[jti].client.Some? && s.tokens[jti].client.value in clients
            then Dead(t, s.tokens[jti].family) else t.tokens[jti] == s.tokens[jti]
  {
  }

  // ---- The table ------------------------------------------------------------------------------------

  datatype RefreshError = Unauthorized

  class RefreshTokens {
    var tokens: map<Jti, Token>
    ghost var st: State

    ghost predicate Valid()
      reads this
    {
      tokens == st.tokens && Inv(st)
    }

    constructor ()
      ensures Valid() && st == INIT
    {
      tokens, st := map[], INIT;
    }

    /** The row of a login: the first of a new family. */
    method IssuePair(jti: Jti, family: Family, client: Option<Client>)
      requires Valid() && CanDo(st, Issue(jti, family, client))
      modifies this
      ensures Valid() && st == Next(old(st), Issue(jti, family, client))
      ensures tokens == old(tokens)[jti := Token(family, client, false, false, None)]
    {
      StepKeepsInv(st, Issue(jti, family, client));
      tokens := tokens[jti := Token(family, client, false, false, None)];
      st := Next(st, Issue(jti, family, client));
    }

    /** Exchange a token for the next of its family. `client` is the device named in the presented
        token; signed when its row was written, it is the row's. */
    method Refresh(verified: bool, jti: Jti, client: Option<Client>, newJti: Jti) returns (r: Result<Jti, RefreshError>)
      requires Valid() && newJti !in tokens
      requires verified && jti in tokens ==> tokens[jti].client == client
      modifies this
      ensures Valid() && st == Next(old(st), Event.Refresh(verified, jti, newJti))
      ensures r == if Grants(old(st), verified, jti) then Ok(newJti) else Err(Unauthorized)
      ensures var was := old(tokens);
              if !verified || jti !in was then r.Err? && tokens == was
              else if was[jti].revoked || was[jti].rotated then
                && r.Err? && tokens.Keys == was.Keys
                && forall j :: j in was ==>
                     tokens[j] == if was[j].family == was[jti].family then was[j].(revoked := true) else was[j]
              else
                && r == Ok(newJti)
                && tokens == was[jti := was[jti].(rotated := true, replacedBy := Some(newJti))]
                                [newJti := Token(was[jti].family, client, false, false, None)]
      ensures r.Err? && verified && jti in tokens ==> Dead(st, tokens[jti].family)
    {
      ghost var before := st;
      StepKeepsInv(st, Event.Refresh(verified, jti, newJti));
      st := Next(st, Event.Refresh(verified, jti, newJti));
      if !verified { return Err(Unauthorized); }
      if jti !in tokens { return Err(Unauthorized); }
      var row := tokens[jti];
      if row.revoked || row.rotated {
        tokens := RevokeFamily(tokens, row.family);
        RevokedMeansDead(st, jti);
        return Err(Unauthorized);
      }
      tokens := tokens[jti := row.(rotated := true, replacedBy := Some(newJti))];
      tokens := tokens[newJti := Token(row.family, client, false, false, None)];
      r := Ok(newJti);
    }

    method RevokeOtherDevices(caller: Client)
      requires Valid()
      modifies this
      ensures Valid() && st == Next(old(st), ChangePassword(caller))
    {
      StepKeepsInv(st, ChangePassword(caller));
      tokens := RevokeOthers(tokens, caller);
      st := Next(st, ChangePassword(caller));
    }

    method RevokeRemoved(clients: set<Client>)
      requires Valid()
      modifies this
      ensures Valid() && st == Next(old(st), RemoveDevices(clients))
    {
      StepKeepsInv(st, RemoveDevices(clients));
      tokens := RevokeClients(tokens, clients);
      st := Next(st, RemoveDevices(clients));
    }
  }
}
