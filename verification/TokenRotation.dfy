/** Refresh-token rotation as a protocol. Every await in the source is a point at which other
    requests, expiry and account changes may come in between, so a login is two steps (it checks the
    user, and only then issues the first token) and a refresh is three: it consumes its token, looks
    the user up, and only then issues the successor.

    A token is known by its jti. What a signed token says (its subject) cannot change, so it is
    recorded once, when the token is minted; so is its lineage, the login it descends from. */
module TokenRotation {
  import opened Wrappers

  type Jti = nat
  type UserId = nat
  type RequestId = nat

  /** What is fixed about a token when it is minted. */
  datatype Token = Token(subject: UserId, lineage: Jti, parent: Option<Jti>)

  /** A refresh between its steps. */
  datatype Refresh =
    | Consumed(jti: Jti)
    | Vetted(jti: Jti, user: UserId)

  datatype State = State(
    store: map<Jti, UserId>,           // Redis, without the key prefix
    accounts: map<UserId, bool>,       // the users table: is the account active?
    logins: map<RequestId, UserId>,    // admitted, no token issued yet
    refreshes: map<RequestId, Refresh>,
    minted: map<Jti, Token>)

  const START := State(map[], map[], map[], map[], map[])

  datatype Event =
    | Login(request: RequestId, user: UserId, passwordOk: bool)
    | IssueFirst(request: RequestId, jti: Jti)
    | Consume(request: RequestId, token: Jti)
    | LookUp(request: RequestId)
    | Issue(request: RequestId, jti: Jti)
    | Abandon(request: RequestId)
    | Logout(token: Jti)
    | Expire(jti: Jti)
    | SetAccount(user: UserId, active: bool)
    | DropAccount(user: UserId)

  function Without<V>(m: map<nat, V>, k: nat): map<nat, V> { m - {k} }

  function IssueTokens(s: State, jti: Jti, token: Token): State {
    s.(store := s.store[jti := token.subject], minted := s.minted[jti := token])
  }

  predicate Admits(s: State, user: UserId, passwordOk: bool) {
    user in s.accounts && passwordOk && s.accounts[user]
  }

  predicate Redeems(s: State, token: Jti) { token in s.minted && token in s.store }

  /** The refresh is past its lookup, for a token that was minted. */
  predicate Ready(s: State, request: RequestId) {
    request in s.refreshes && s.refreshes[request].Vetted? && s.refreshes[request].jti in s.minted
  }

  function Redeem(s: State, request: RequestId, token: Jti): State {
    s.(store := Without(s.store, token), refreshes := s.refreshes[request := Consumed(token)])
  }

  function LookUpUser(s: State, request: RequestId): State {
    if request in s.refreshes && s.refreshes[request].Consumed? then
      var jti := s.refreshes[request].jti;
      if jti in s.minted && s.minted[jti].subject in s.accounts && s.accounts[s.minted[jti].subject] then
        s.(refreshes := s.refreshes[request := Vetted(jti, s.minted[jti].subject)])
      else s.(refreshes := Without(s.refreshes, request))
    else s
  }

  /** The token a vetted refresh is about to mint. */
  function Successor(s: State, request: RequestId): Token
    requires Ready(s, request)
  {
    var r := s.refreshes[request];
    Token(r.user, s.minted[r.jti].lineage, Some(r.jti))
  }

  /** One atomic step. A refused request (401) leaves the state as it is; a refresh that fails after
      its token was consumed ends without a successor. */
  function Step(s: State, e: Event): State {
    match e
    case Login(request, user, passwordOk) =>
      if Admits(s, user, passwordOk) then s.(logins := s.logins[request := user]) else s
    case IssueFirst(request, jti) =>
      if request in s.logins then
        IssueTokens(s.(logins := Without(s.logins, request)), jti, Token(s.logins[request], jti, None))
      else s
    case Consume(request, token) => if Redeems(s, token) then Redeem(s, request, token) else s
    case LookUp(request) => LookUpUser(s, request)
    case Issue(request, jti) =>
      if Ready(s, request) then
        IssueTokens(s.(refreshes := Without(s.refreshes, request)), jti, Successor(s, request))
      else s
    case Abandon(request) => s.(logins := Without(s.logins, request), refreshes := Without(s.refreshes, request))
    case Logout(token) => if token in s.minted then s.(store := Without(s.store, token)) else s
    case Expire(jti) => s.(store := Without(s.store, jti))
    case SetAccount(user, active) => s.(accounts := s.accounts[user := active])
    case DropAccount(user) => s.(accounts := Without(s.accounts, user))
  }

  /** New tokens carry jtis never seen before, and a request is handled once. */
  predicate Possible(s: State, e: Event) {
    match e
    case Login(request, _, _) => request !in s.logins && request !in s.refreshes
    case IssueFirst(_, jti) => jti !in s.minted
    case Issue(_, jti) => jti !in s.minted
    case Consume(request, _) => request !in s.logins && request !in s.refreshes
    case _ => true
  }

  /** From the `i`th state the `i`th event leads to the next. */
  ghost predicate Moves(ss: seq<State>, es: seq<Event>, i: nat)
    requires |ss| == |es| + 1 && i < |es|
  {
    Possible(ss[i], es[i]) && ss[i + 1] == Step(ss[i], es[i])
  }

  /** A run of the system: any events, in any order, and the states between them. */
  ghost predicate Run(ss: seq<State>, es: seq<Event>) {
    |ss| == |es| + 1 && ss[0] == START && forall i: nat | i < |es| :: Moves(ss, es, i)
  }

  // ---------- what holds a lineage ----------

  /** A live token, or a refresh that has consumed one and not yet issued the next. */
  datatype Holder = Live(jti: Jti) | InFlight(request: RequestId)

  predicate Holds(s: State, h: Holder, lineage: Jti) {
    match h
    case Live(jti) => jti in s.store && jti in s.minted && s.minted[jti].lineage == lineage
    case InFlight(request) =>
      request in s.refreshes && s.refreshes[request].jti in s.minted
      && s.minted[s.refreshes[request].jti].lineage == lineage
  }

  /** The token is neither live nor in the hands of a refresh. */
  ghost predicate Spent(s: State, jti: Jti) {
    jti !in s.store && forall q | q in s.refreshes :: s.refreshes[q].jti != jti
  }

  // ---------- the invariant ----------

  ghost predicate LiveOk(s: State, jti: Jti) {
    jti in s.store ==> jti in s.minted && s.store[jti] == s.minted[jti].subject
  }

  ghost predicate RefreshOk(s: State, q: RequestId) {
    q in s.refreshes ==>
      && s.refreshes[q].jti in s.minted && s.refreshes[q].jti !in s.store
      && (s.refreshes[q].Vetted? ==> s.refreshes[q].user == s.minted[s.refreshes[q].jti].subject)
  }

  /** A first token founds its lineage; a successor continues its parent's, for the same user, and
      its parent is spent. All tokens of a lineage are for its founder's user. */
  ghost predicate Descends(s: State, jti: Jti) {
    jti in s.minted ==>
      && s.minted[jti].lineage in s.minted
      && s.minted[s.minted[jti].lineage].subject == s.minted[jti].subject
      && match s.minted[jti].parent
         case None => s.minted[jti].lineage == jti
         case Some(p) =>
           && p in s.minted && s.minted[p].lineage == s.minted[jti].lineage
           && s.minted[p].subject == s.minted[jti].subject && Spent(s, p)
  }

  ghost predicate Siblings(s: State, a: Jti, b: Jti) {
    a in s.minted && b in s.minted && s.minted[a].parent.Some? && s.minted[a].parent == s.minted[b].parent
  }

  ghost predicate OneHolder(s: State) {
    forall g, h, lineage: Jti :: Holds(s, g, lineage) && Holds(s, h, lineage) ==> g == h
  }

  ghost predicate Inv(s: State) {
    && (forall jti :: LiveOk(s, jti)) && (forall q :: RefreshOk(s, q)) && (forall jti :: Descends(s, jti))
    && OneHolder(s)
    && (forall a, b :: Siblings(s, a, b) ==> a == b)
  }

  // ---------- steps that only take away ----------

  /** Nothing is minted or becomes live, and refreshes go on with the token they have or end. */
  ghost predicate Shrinks(s: State, u: State) {
    && u.minted == s.minted
    && (forall jti | jti in u.store :: jti in s.store && u.store[jti] == s.store[jti])
    && (forall q | q in u.refreshes :: q in s.refreshes && u.refreshes[q].jti == s.refreshes[q].jti && RefreshOk(u, q))
  }

  predicate Effective(s: State, e: Event) {
    match e
    case IssueFirst(request, _) => request in s.logins
    case Consume(_, token) => Redeems(s, token)
    case Issue(request, _) => Ready(s, request)
    case _ => false
  }

  lemma OtherStepsShrink(s: State, e: Event)
    requires Inv(s) && !Effective(s, e)
    ensures Shrinks(s, Step(s, e))
  {
    var u := Step(s, e);
    forall q | q in u.refreshes
      ensures q in s.refreshes && u.refreshes[q].jti == s.refreshes[q].jti && RefreshOk(u, q)
    {
      assert RefreshOk(s, q);
    }
  }

  lemma ShrinkKeepsInv(s: State, u: State)
    requires Inv(s) && Shrinks(s, u)
    ensures Inv(u)
  {
    forall jti ensures LiveOk(u, jti) { assert LiveOk(s, jti); }
    forall jti ensures Descends(u, jti) { assert Descends(s, jti); }
    forall g, h, lineage: Jti | Holds(u, g, lineage) && Holds(u, h, lineage) ensures g == h {
      assert Holds(s, g, lineage) && Holds(s, h, lineage);
    }
    forall a, b | Siblings(u, a, b) ensures a == b { assert Siblings(s, a, b); }
  }

  // ---------- where holders come from ----------

  /** The holder in whose place `h` stands after the step. */
  function Origin(s: State, e: Event, h: Holder): Holder {
    match e
    case Consume(request, token) => if Redeems(s, token) && h == InFlight(request) then Live(token) else h
    case Issue(request, jti) => if Ready(s, request) && h == Live(jti) then InFlight(request) else h
    case _ => h
  }

  /** The lineage that the step founds, if any. */
  function Founds(s: State, e: Event): Option<Jti> {
    if e.IssueFirst? && e.request in s.logins then Some(e.jti) else None
  }

  lemma HolderHasOrigin(s: State, e: Event, h: Holder, lineage: Jti)
    requires Inv(s) && Possible(s, e) && Founds(s, e) != Some(lineage) && Holds(Step(s, e), h, lineage)
    ensures Holds(s, Origin(s, e, h), lineage)
  {
    if !Effective(s, e) { OtherStepsShrink(s, e); }
    if h.InFlight? { assert RefreshOk(s, h.request); }
  }

  lemma OriginsDiffer(s: State, e: Event, g: Holder, h: Holder, lineage: Jti)
    requires Inv(s) && Possible(s, e) && Founds(s, e) != Some(lineage)
    requires Holds(Step(s, e), g, lineage) && Holds(Step(s, e), h, lineage) && Origin(s, e, g) == Origin(s, e, h)
    ensures g == h
  {
  }

  lemma FoundedAlone(s: State, e: Event, h: Holder)
    requires Inv(s) && Possible(s, e) && Founds(s, e).Some? && Holds(Step(s, e), h, Founds(s, e).value)
    ensures h == Live(Founds(s, e).value)
  {
    var u := Step(s, e);
    var jti := if h.Live? then h.jti else u.refreshes[h.request].jti;
    var request := if h.InFlight? then h.request else 0;
    assert Descends(s, jti) && RefreshOk(s, request);
  }

  lemma StepKeepsOneHolder(s: State, e: Event)
    requires Inv(s) && Possible(s, e)
    ensures OneHolder(Step(s, e))
  {
    forall g, h, lineage: Jti | Holds(Step(s, e), g, lineage) && Holds(Step(s, e), h, lineage) ensures g == h {
      if Founds(s, e) == Some(lineage) {
        FoundedAlone(s, e, g);
        FoundedAlone(s, e, h);
      } else {
        HolderHasOrigin(s, e, g, lineage);
        HolderHasOrigin(s, e, h, lineage);
        OriginsDiffer(s, e, g, h, lineage);
      }
    }
  }

  // ---------- spent tokens ----------

  /** A token that is spent is spent for good. */
  lemma SpentStaysSpent(s: State, e: Event, jti: Jti)
    requires Inv(s) && Possible(s, e) && jti in s.minted && Spent(s, jti)
    ensures Spent(Step(s, e), jti)
  {
    if !Effective(s, e) { OtherStepsShrink(s, e); }
  }

  lemma IssueSpendsParent(s: State, e: Event)
    requires Inv(s) && Possible(s, e) && e.Issue? && Ready(s, e.request)
    ensures Spent(Step(s, e), s.refreshes[e.request].jti)
  {
    var p := s.refreshes[e.request].jti;
    assert RefreshOk(s, e.request);
    forall q | q in s.refreshes && s.refreshes[q].jti == p ensures q == e.request {
      assert Holds(s, InFlight(q), s.minted[p].lineage) && Holds(s, InFlight(e.request), s.minted[p].lineage);
    }
  }

  lemma StepKeepsDescent(s: State, e: Event, jti: Jti)
    requires Inv(s) && Possible(s, e)
    ensures Descends(Step(s, e), jti)
  {
    assert Descends(s, jti);
    if jti in s.minted {
      if s.minted[jti].parent.Some? { SpentStaysSpent(s, e, s.minted[jti].parent.value); }
    } else if e.Issue? && Ready(s, e.request) {
      IssueSpendsParent(s, e);
      assert RefreshOk(s, e.request) && Descends(s, s.refreshes[e.request].jti);
    }
  }

  lemma StepKeepsSiblings(s: State, e: Event, a: Jti, b: Jti)
    requires Inv(s) && Possible(s, e) && Siblings(Step(s, e), a, b)
    ensures a == b
  {
    assert Descends(s, a) && Descends(s, b);
    assert Siblings(s, a, b) ==> a == b;
  }

  /** The invariant is inductive over every step of every interleaving. */
  lemma StepKeepsInv(s: State, e: Event)
    requires Inv(s) && Possible(s, e)
    ensures Inv(Step(s, e))
  {
    if !Effective(s, e) {
      OtherStepsShrink(s, e);
      ShrinkKeepsInv(s, Step(s, e));
    } else {
      StepKeepsOneHolder(s, e);
      forall jti ensures Descends(Step(s, e), jti) { StepKeepsDescent(s, e, jti); }
      forall a, b | Siblings(Step(s, e), a, b) ensures a == b { StepKeepsSiblings(s, e, a, b); }
      forall jti ensures LiveOk(Step(s, e), jti) { assert LiveOk(s, jti); EffectiveKeepsLive(s, e, jti); }
      forall q ensures RefreshOk(Step(s, e), q) { EffectiveKeepsRefresh(s, e, q); }
    }
  }

  lemma EffectiveKeepsLive(s: State, e: Event, jti: Jti)
    requires Inv(s) && Possible(s, e) && Effective(s, e)
    ensures LiveOk(Step(s, e), jti)
  {
    assert LiveOk(s, jti);
  }

  lemma EffectiveKeepsRefresh(s: State, e: Event, q: RequestId)
    requires Inv(s) && Possible(s, e) && Effective(s, e)
    ensures RefreshOk(Step(s, e), q)
  {
    assert RefreshOk(s, q);
  }

  // ---------- whole runs ----------

  lemma {:induction false} InvAlways(ss: seq<State>, es: seq<Event>, i: nat)
    requires Run(ss, es) && i <= |es|
    ensures Inv(ss[i])
  {
    if i > 0 {
      InvAlways(ss, es, i - 1);
      assert Moves(ss, es, i - 1);
      StepKeepsInv(ss[i - 1], es[i - 1]);
    }
  }

  /** In every interleaving, at every moment, each login has at most one live token or refresh in
      flight descending from it. */
  lemma AtMostOneHolder(ss: seq<State>, es: seq<Event>, i: nat, lineage: Jti, g: Holder, h: Holder)
    requires Run(ss, es) && i <= |es|
    requires Holds(ss[i], g, lineage) && Holds(ss[i], h, lineage)
    ensures g == h
  {
    InvAlways(ss, es, i);
  }

  lemma StepKeepsTokens(s: State, e: Event, jti: Jti)
    requires Possible(s, e) && jti in s.minted
    ensures jti in Step(s, e).minted && Step(s, e).minted[jti] == s.minted[jti]
    ensures jti !in s.store ==> jti !in Step(s, e).store
  {
  }

  /** What a token says never changes. */
  lemma {:induction false} TokensStay(ss: seq<State>, es: seq<Event>, i: nat, j: nat, jti: Jti)
    requires Run(ss, es) && i <= j <= |es| && jti in ss[i].minted
    ensures jti in ss[j].minted && ss[j].minted[jti] == ss[i].minted[jti]
    decreases j - i
  {
    if i < j {
      TokensStay(ss, es, i, j - 1, jti);
      assert Moves(ss, es, j - 1);
      StepKeepsTokens(ss[j - 1], es[j - 1], jti);
    }
  }

  /** A token that has been consumed, revoked or has expired is never live again. */
  lemma {:induction false} NeverLiveAgain(ss: seq<State>, es: seq<Event>, i: nat, j: nat, jti: Jti)
    requires Run(ss, es) && i <= j <= |es| && jti in ss[i].minted && jti !in ss[i].store
    ensures jti !in ss[j].store
    decreases j - i
  {
    if i < j {
      NeverLiveAgain(ss, es, i, j - 1, jti);
      TokensStay(ss, es, i, j - 1, jti);
      assert Moves(ss, es, j - 1);
      StepKeepsTokens(ss[j - 1], es[j - 1], jti);
    }
  }

  /** Event `i` redeems the token: the one way to obtain a successor for it. */
  ghost predicate RedeemedAt(ss: seq<State>, es: seq<Event>, i: nat, jti: Jti) {
    i < |es| && i < |ss| && es[i].Consume? && es[i].token == jti && Redeems(ss[i], jti)
  }

  /** Of all requests ever made with a token, at most one is let through. */
  lemma RedeemedOnce(ss: seq<State>, es: seq<Event>, i: nat, j: nat, jti: Jti)
    requires Run(ss, es) && RedeemedAt(ss, es, i, jti) && RedeemedAt(ss, es, j, jti)
    ensures i == j
  {
    if i < j { RedeemedTwice(ss, es, i, j, jti); }
    if j < i { RedeemedTwice(ss, es, j, i, jti); }
  }

  lemma RedeemedTwice(ss: seq<State>, es: seq<Event>, i: nat, j: nat, jti: Jti)
    requires Run(ss, es) && RedeemedAt(ss, es, i, jti) && i < j <= |es|
    ensures jti !in ss[j].store
  {
    assert Moves(ss, es, i);
    NeverLiveAgain(ss, es, i + 1, j, jti);
  }

  /** Each token has at most one successor, ever. */
  lemma OneSuccessorEver(ss: seq<State>, es: seq<Event>, i: nat, a: Jti, b: Jti)
    requires Run(ss, es) && i <= |es| && Siblings(ss[i], a, b)
    ensures a == b
  {
    InvAlways(ss, es, i);
  }

  // ---------- what a step leaves alone ----------

  /** The three ways in which a live token stops being live. */
  predicate Removes(e: Event, jti: Jti) {
    match e
    case Consume(_, token) => token == jti
    case Logout(token) => token == jti
    case Expire(expired) => expired == jti
    case _ => false
  }

  /** A live token stops being live exactly when it is consumed, revoked or expires; nothing that is done with
      other tokens, by logins or by refreshes touches it, and its value never changes. */
  lemma LeavesStoreIff(s: State, e: Event, jti: Jti)
    requires Inv(s) && Possible(s, e) && jti in s.store
    ensures jti !in Step(s, e).store <==> Removes(e, jti)
    ensures !Removes(e, jti) ==> Step(s, e).store[jti] == s.store[jti]
  {
    assert LiveOk(s, jti);
  }

  /** A token becomes live exactly when a pending login or a vetted refresh issues it. */
  lemma EntersStoreIff(s: State, e: Event, jti: Jti)
    requires Inv(s) && Possible(s, e) && jti !in s.store
    ensures jti in Step(s, e).store <==>
      (e.IssueFirst? && e.request in s.logins && e.jti == jti) || (e.Issue? && Ready(s, e.request) && e.jti == jti)
  {
  }

  /** Over whole runs: a live token stays live, with its value, until one of the three happens to it. */
  lemma {:induction false} StaysLive(ss: seq<State>, es: seq<Event>, i: nat, j: nat, jti: Jti)
    requires Run(ss, es) && i <= j <= |es| && jti in ss[i].store
    requires forall k | i <= k < j :: !Removes(es[k], jti)
    ensures jti in ss[j].store && ss[j].store[jti] == ss[i].store[jti]
    decreases j - i
  {
    if i < j {
      StaysLive(ss, es, i, j - 1, jti);
      InvAlways(ss, es, j - 1);
      assert Moves(ss, es, j - 1);
      LeavesStoreIff(ss[j - 1], es[j - 1], jti);
    }
  }

  /** A new token is minted exactly when it is issued, to the user of the login or of the refresh. */
  lemma MintedIff(s: State, e: Event, jti: Jti)
    requires Possible(s, e) && jti !in s.minted
    ensures var u := Step(s, e);
      && (jti in u.minted <==> (e.IssueFirst? && e.request in s.logins && e.jti == jti)
                               || (e.Issue? && Ready(s, e.request) && e.jti == jti))
      && (e.IssueFirst? && jti in u.minted ==>
            u.minted[jti].subject == s.logins[e.request] && u.minted[jti].lineage == jti && u.minted[jti].parent.None?)
      && (e.Issue? && jti in u.minted ==>
            && u.minted[jti].subject == s.refreshes[e.request].user
            && u.minted[jti].parent == Some(s.refreshes[e.request].jti)
            && u.minted[jti].lineage == s.minted[s.refreshes[e.request].jti].lineage)
  {
  }

  /** No login, refresh, logout or expiry changes an account. */
  lemma AccountsChangeIff(s: State, e: Event, user: UserId)
    ensures var u := Step(s, e);
      && (user in u.accounts <==> (user in s.accounts && e != DropAccount(user)) || (e.SetAccount? && e.user == user))
      && (user in u.accounts ==>
            u.accounts[user] == if e.SetAccount? && e.user == user then e.active else s.accounts[user])
  {
  }

  /** A login is pending exactly from its admission until its token is issued or it is abandoned; its user
      stays the one that was checked. */
  lemma PendingIff(s: State, e: Event, request: RequestId)
    requires Possible(s, e)
    ensures var u := Step(s, e);
      && (request in u.logins <==>
            (request in s.logins && e != Abandon(request) && !(e.IssueFirst? && e.request == request))
            || (e.Login? && e.request == request && e.user in s.accounts && s.accounts[e.user] && e.passwordOk))
      && (request in u.logins ==> u.logins[request] == if request in s.logins then s.logins[request] else e.user)
  {
  }

  /** A refresh is in flight exactly from its GETDEL until it has issued its token, is abandoned, or is turned away
      at its lookup; the token it is for stays the one it consumed. */
  lemma InFlightIff(s: State, e: Event, request: RequestId)
    requires Inv(s) && Possible(s, e)
    ensures var u := Step(s, e);
      && (request in u.refreshes <==>
            (request in s.refreshes && e != Abandon(request)
             && !(e.Issue? && e.request == request && Ready(s, request))
             && !(e == LookUp(request) && s.refreshes[request].Consumed?
                  && !SubjectActive(s, s.refreshes[request].jti)))
            || (e.Consume? && e.request == request && e.token in s.minted && e.token in s.store))
      && (request in u.refreshes && request in s.refreshes ==> u.refreshes[request].jti == s.refreshes[request].jti)
      && (request in u.refreshes && request in s.refreshes && e != LookUp(request) ==>
            u.refreshes[request] == s.refreshes[request])
      && (request in u.refreshes && request !in s.refreshes ==> u.refreshes[request] == Consumed(e.token))
  {
    assert RefreshOk(s, request);
  }

  /** The user the token was issued to exists and is active. */
  predicate SubjectActive(s: State, jti: Jti) {
    jti in s.minted && s.minted[jti].subject in s.accounts && s.accounts[s.minted[jti].subject]
  }

  /** The lookup lets a refresh through exactly if the subject of its token exists and is active, and then as
      that user; else the refresh is over. */
  lemma LetThroughIff(s: State, request: RequestId)
    requires Inv(s) && request in s.refreshes && s.refreshes[request].Consumed?
    ensures var jti := s.refreshes[request].jti;
      var u := Step(s, LookUp(request));
      && jti in s.minted
      && (SubjectActive(s, jti) ==>
            request in u.refreshes && u.refreshes[request] == Vetted(jti, s.minted[jti].subject) && Ready(u, request))
      && (!SubjectActive(s, jti) ==> request !in u.refreshes && !Ready(u, request))
  {
    assert RefreshOk(s, request);
  }

  // ---------- ownership ----------

  /** At every moment the stored value, the subject of the token, the user a refresh has looked up and
      the user of the login that founded the lineage are one and the same. */
  lemma OneOwner(ss: seq<State>, es: seq<Event>, i: nat, jti: Jti)
    requires Run(ss, es) && i <= |es| && jti in ss[i].minted
    ensures var s := ss[i];
      var owner := s.minted[jti].subject;
      && (jti in s.store ==> s.store[jti] == owner)
      && (forall q | q in s.refreshes && s.refreshes[q].jti == jti ::
            s.refreshes[q].Vetted? ==> s.refreshes[q].user == owner)
      && (s.minted[jti].parent.Some? ==> s.minted[jti].parent.value in s.minted
                                         && s.minted[s.minted[jti].parent.value].subject == owner)
      && s.minted[jti].lineage in s.minted && s.minted[s.minted[jti].lineage].subject == owner
  {
    InvAlways(ss, es, i);
    var s := ss[i];
    assert LiveOk(s, jti) && Descends(s, jti);
    forall q | q in s.refreshes && s.refreshes[q].jti == jti
      ensures s.refreshes[q].Vetted? ==> s.refreshes[q].user == s.minted[jti].subject
    {
      assert RefreshOk(s, q);
    }
  }

  // ---------- the death of a lineage ----------

  ghost predicate Dead(s: State, lineage: Jti) {
    lineage in s.minted && forall h :: !Holds(s, h, lineage)
  }

  lemma StepKeepsDead(s: State, e: Event, lineage: Jti)
    requires Inv(s) && Possible(s, e) && Dead(s, lineage)
    ensures Dead(Step(s, e), lineage)
  {
    var u := Step(s, e);
    forall h ensures !Holds(u, h, lineage) {
      if Holds(u, h, lineage) { HolderHasOrigin(s, e, h, lineage); }
    }
  }

  lemma DeadMintsNothing(s: State, e: Event, lineage: Jti, jti: Jti)
    requires Inv(s) && Possible(s, e) && Dead(s, lineage)
    requires jti in Step(s, e).minted && Step(s, e).minted[jti].lineage == lineage
    ensures jti in s.minted && s.minted[jti].lineage == lineage
  {
    if e.Issue? && Ready(s, e.request) { assert !Holds(s, InFlight(e.request), lineage); }
  }

  /** A lineage without holders stays without: no token of it is ever live again. */
  lemma {:induction false} DeadStaysDead(ss: seq<State>, es: seq<Event>, i: nat, j: nat, lineage: Jti)
    requires Run(ss, es) && i <= j <= |es| && Dead(ss[i], lineage)
    ensures Dead(ss[j], lineage)
    decreases j - i
  {
    if i < j {
      DeadStaysDead(ss, es, i, j - 1, lineage);
      InvAlways(ss, es, j - 1);
      assert Moves(ss, es, j - 1);
      StepKeepsDead(ss[j - 1], es[j - 1], lineage);
    }
  }

  /** Nor is another token of it ever minted. */
  lemma {:induction false} DeadHasNoHeir(ss: seq<State>, es: seq<Event>, i: nat, j: nat, lineage: Jti, jti: Jti)
    requires Run(ss, es) && i <= j <= |es| && Dead(ss[i], lineage)
    requires jti in ss[j].minted && ss[j].minted[jti].lineage == lineage
    ensures jti in ss[i].minted
    decreases j - i
  {
    if i < j {
      DeadStaysDead(ss, es, i, j - 1, lineage);
      InvAlways(ss, es, j - 1);
      assert Moves(ss, es, j - 1);
      DeadMintsNothing(ss[j - 1], es[j - 1], lineage, jti);
      DeadHasNoHeir(ss, es, i, j - 1, lineage, jti);
    }
  }

  /** Logging out with a token ends its lineage exactly when the token is still live, or the lineage
      was dead already. In particular it does not when the token has just been consumed by a refresh
      that is still in flight, or has been rotated before. */
  lemma LogoutEndsLineageIff(s: State, jti: Jti)
    requires Inv(s) && jti in s.minted
    ensures Dead(Step(s, Logout(jti)), s.minted[jti].lineage) <==> (jti in s.store || Dead(s, s.minted[jti].lineage))
  {
    var lineage, u := s.minted[jti].lineage, Step(s, Logout(jti));
    assert Descends(s, jti);
    if jti in s.store {
      assert Holds(s, Live(jti), lineage);
      forall h ensures !Holds(u, h, lineage) {
        if Holds(u, h, lineage) { assert Holds(s, h, lineage); }
      }
    } else {
      assert u.store == s.store;
      forall h ensures Holds(u, h, lineage) == Holds(s, h, lineage) {}
    }
  }

  /** A logout that races a refresh loses: it finds nothing to delete, and the successor that the
      refresh goes on to issue is live. */
  lemma LogoutLosesTheRace(s: State, request: RequestId, next: Jti)
    requires Inv(s) && Ready(s, request) && next !in s.minted
    ensures var jti := s.refreshes[request].jti;
      var u := Step(Step(s, Logout(jti)), Issue(request, next));
      next in u.store && next in u.minted && u.minted[next].lineage == s.minted[jti].lineage
  {
    assert RefreshOk(s, request);
  }

  lemma RunGoesOn(ss: seq<State>, es: seq<Event>, e: Event)
    requires Run(ss, es) && Possible(ss[|es|], e)
    ensures Run(ss + [Step(ss[|es|], e)], es + [e])
  {
    var tt, fs := ss + [Step(ss[|es|], e)], es + [e];
    forall i: nat | i < |fs| ensures Moves(tt, fs, i) {
      if i < |es| {
        assert Moves(ss, es, i);
        assert tt[i] == ss[i] && tt[i + 1] == ss[i + 1] && fs[i] == es[i];
      }
    }
  }

  /** Such states are reached: one login, and one refresh that has got as far as its lookup. */
  lemma RaceIsReachable() returns (ss: seq<State>, es: seq<Event>)
    ensures Run(ss, es) && Ready(ss[|es|], 0)
  {
    ss, es := LoginIsReachable();
    var s := ss[|es|];
    RunGoesOn(ss, es, Consume(0, 1));
    ss, es := ss + [Step(s, Consume(0, 1))], es + [Consume(0, 1)];
    assert ss[|es|] == Redeem(s, 0, 1);
    RunGoesOn(ss, es, LookUp(0));
    ss, es := ss + [Step(ss[|es|], LookUp(0))], es + [LookUp(0)];
  }

  lemma LoginIsReachable() returns (ss: seq<State>, es: seq<Event>)
    ensures Run(ss, es) && ss[|es|] == IssueTokens(START.(accounts := map[7 := true]), 1, Token(7, 1, None))
  {
    es := [SetAccount(7, true), Login(0, 7, true), IssueFirst(0, 1)];
    var s := START.(accounts := map[7 := true]);
    ss := [START, s, s.(logins := map[0 := 7]), IssueTokens(s, 1, Token(7, 1, None))];
    assert Moves(ss, es, 0);
    assert Moves(ss, es, 1);
    assert Without(map[0 := 7], 0) == map[];
    assert Moves(ss, es, 2);
  }

  // ---------- closed accounts ----------

  /** The account is gone or inactive, and no login or refresh that was let through before is still
      on its way to issuing a token for it. */
  ghost predicate Closed(s: State, user: UserId) {
    && (user in s.accounts ==> !s.accounts[user])
    && (forall q | q in s.logins :: s.logins[q] != user)
    && (forall q | q in s.refreshes && s.refreshes[q].Vetted? :: s.refreshes[q].user != user)
  }

  lemma StepKeepsClosed(s: State, e: Event, user: UserId)
    requires Inv(s) && Possible(s, e) && Closed(s, user) && e != SetAccount(user, true)
    ensures Closed(Step(s, e), user)
  {
  }

  lemma StepIssuesNone(s: State, e: Event, user: UserId, jti: Jti)
    requires Inv(s) && Possible(s, e) && Closed(s, user)
    requires jti in Step(s, e).minted && Step(s, e).minted[jti].subject == user
    ensures jti in s.minted && s.minted[jti].subject == user
  {
  }

  lemma {:induction false} ClosedStaysClosed(ss: seq<State>, es: seq<Event>, i: nat, j: nat, user: UserId)
    requires Run(ss, es) && i <= j <= |es| && Closed(ss[i], user)
    requires forall k | i <= k < j :: es[k] != SetAccount(user, true)
    ensures Closed(ss[j], user)
    decreases j - i
  {
    if i < j {
      ClosedStaysClosed(ss, es, i, j - 1, user);
      InvAlways(ss, es, j - 1);
      assert Moves(ss, es, j - 1);
      StepKeepsClosed(ss[j - 1], es[j - 1], user);
    }
  }

  /** Once an account is closed, no run issues it another token, by login or by refresh of the tokens
      that are still live, until it is activated again. */
  lemma {:induction false} ClosedGetsNoToken(ss: seq<State>, es: seq<Event>, i: nat, j: nat, user: UserId, jti: Jti)
    requires Run(ss, es) && i <= j <= |es| && Closed(ss[i], user)
    requires forall k | i <= k < j :: es[k] != SetAccount(user, true)
    requires jti in ss[j].minted && ss[j].minted[jti].subject == user
    ensures jti in ss[i].minted
    decreases j - i
  {
    if i < j {
      ClosedStaysClosed(ss, es, i, j - 1, user);
      InvAlways(ss, es, j - 1);
      assert Moves(ss, es, j - 1);
      StepIssuesNone(ss[j - 1], es[j - 1], user, jti);
      ClosedGetsNoToken(ss, es, i, j - 1, user, jti);
    }
  }

  /** `ts` and `fs` carry the run on without activating the user. */
  ghost predicate CarriesOn(ss: seq<State>, es: seq<Event>, ts: seq<State>, fs: seq<Event>, user: UserId) {
    && Run(ts, fs) && ss <= ts && es <= fs
    && forall k | |es| <= k < |fs| :: fs[k] != SetAccount(user, true)
  }

  predicate IssuedTo(s: State, jti: Jti, user: UserId) { jti in s.minted && s.minted[jti].subject == user }

  lemma FreshNumber(taken: set<nat>) returns (n: nat)
    ensures n !in taken
  {
    n := 0;
    var below: set<nat> := {};
    while n in taken
      invariant below <= taken && forall k: nat :: k in below <==> k < n
      decreases |taken| - |below|
    {
      below := below + {n};
      SubsetSize(below, taken);
      n := n + 1;
    }
  }

  lemma SubsetSize(a: set<nat>, b: set<nat>)
    requires a <= b
    ensures |a| <= |b|
  {
    assert a + (b - a) == b;
  }

  lemma OneMoreEvent(ss: seq<State>, es: seq<Event>, ts: seq<State>, fs: seq<Event>, user: UserId, e: Event)
    requires CarriesOn(ss, es, ts, fs, user) && Possible(ts[|fs|], e) && e != SetAccount(user, true)
    ensures CarriesOn(ss, es, ts + [Step(ts[|fs|], e)], fs + [e], user)
  {
    RunGoesOn(ts, fs, e);
  }

  /** A pending login issues its token, whatever has become of the account. */
  lemma LoginFinishes(ss: seq<State>, es: seq<Event>, ts: seq<State>, fs: seq<Event>, user: UserId, q: RequestId)
    returns (ts': seq<State>, fs': seq<Event>, jti: Jti)
    requires CarriesOn(ss, es, ts, fs, user) && q in ts[|fs|].logins && ts[|fs|].logins[q] == user
    ensures CarriesOn(ss, es, ts', fs', user) && IssuedTo(ts'[|fs'|], jti, user) && jti !in ts[|fs|].minted
  {
    jti := FreshNumber(ts[|fs|].minted.Keys);
    OneMoreEvent(ss, es, ts, fs, user, IssueFirst(q, jti));
    ts', fs' := ts + [Step(ts[|fs|], IssueFirst(q, jti))], fs + [IssueFirst(q, jti)];
  }

  /** So does a refresh that is past its lookup. */
  lemma RefreshFinishes(ss: seq<State>, es: seq<Event>, user: UserId, q: RequestId)
    returns (ts: seq<State>, fs: seq<Event>, jti: Jti)
    requires Run(ss, es) && q in ss[|es|].refreshes && ss[|es|].refreshes[q].Vetted?
    requires ss[|es|].refreshes[q].user == user
    ensures CarriesOn(ss, es, ts, fs, user) && IssuedTo(ts[|fs|], jti, user) && jti !in ss[|es|].minted
  {
    InvAlways(ss, es, |es|);
    assert RefreshOk(ss[|es|], q);
    jti := FreshNumber(ss[|es|].minted.Keys);
    OneMoreEvent(ss, es, ss, es, user, Issue(q, jti));
    ts, fs := ss + [Step(ss[|es|], Issue(q, jti))], es + [Issue(q, jti)];
  }

  /** And an active user can log in. */
  lemma ActiveLogsIn(ss: seq<State>, es: seq<Event>, user: UserId)
    returns (ts: seq<State>, fs: seq<Event>, jti: Jti)
    requires Run(ss, es) && user in ss[|es|].accounts && ss[|es|].accounts[user]
    ensures CarriesOn(ss, es, ts, fs, user) && IssuedTo(ts[|fs|], jti, user) && jti !in ss[|es|].minted
  {
    var s := ss[|es|];
    var q := FreshNumber(s.logins.Keys + s.refreshes.Keys);
    OneMoreEvent(ss, es, ss, es, user, Login(q, user, true));
    ts, fs, jti := LoginFinishes(ss, es, ss + [Step(s, Login(q, user, true))], es + [Login(q, user, true)], user, q);
  }

  lemma OpenGetsToken(ss: seq<State>, es: seq<Event>, user: UserId)
    returns (ts: seq<State>, fs: seq<Event>, jti: Jti)
    requires Run(ss, es) && !Closed(ss[|es|], user)
    ensures CarriesOn(ss, es, ts, fs, user) && IssuedTo(ts[|fs|], jti, user) && jti !in ss[|es|].minted
  {
    var s := ss[|es|];
    if user in s.accounts && s.accounts[user] {
      ts, fs, jti := ActiveLogsIn(ss, es, user);
    } else if q :| q in s.logins && s.logins[q] == user {
      ts, fs, jti := LoginFinishes(ss, es, ss, es, user, q);
    } else {
      var q :| q in s.refreshes && s.refreshes[q].Vetted? && s.refreshes[q].user == user;
      ts, fs, jti := RefreshFinishes(ss, es, user, q);
    }
  }

  /** No continuation without an activation issues the user a token that was not there before. */
  ghost predicate NeverIssuedAgain(ss: seq<State>, es: seq<Event>, user: UserId)
    requires Run(ss, es)
  {
    forall ts, fs, jti: Jti | CarriesOn(ss, es, ts, fs, user) && IssuedTo(ts[|fs|], jti, user) :: jti in ss[|es|].minted
  }

  /** So the condition is exact: it is not enough to deactivate the account; every login and refresh that was
      let through before must have ended as well. */
  lemma NeverIssuedAgainIff(ss: seq<State>, es: seq<Event>, user: UserId)
    requires Run(ss, es)
    ensures NeverIssuedAgain(ss, es, user) <==> Closed(ss[|es|], user)
  {
    if Closed(ss[|es|], user) {
      forall ts, fs, jti: Jti | CarriesOn(ss, es, ts, fs, user) && IssuedTo(ts[|fs|], jti, user)
        ensures jti in ss[|es|].minted
      {
        assert ts[|es|] == ss[|es|];
        ClosedGetsNoToken(ts, fs, |es|, |fs|, user, jti);
      }
    } else {
      var ts, fs, jti := OpenGetsToken(ss, es, user);
      assert CarriesOn(ss, es, ts, fs, user) && IssuedTo(ts[|fs|], jti, user);
    }
  }

  /** Being inactive is not enough: a refresh that is past its lookup still issues a live token. */
  lemma DeactivationLosesTheRace(s: State, request: RequestId, next: Jti)
    requires Inv(s) && Ready(s, request) && next !in s.minted
    ensures var user := s.refreshes[request].user;
      var u := Step(Step(s, SetAccount(user, false)), Issue(request, next));
      !u.accounts[user] && next in u.store && u.store[next] == user
  {
    assert RefreshOk(s, request);
  }

  /** And so does a login that was admitted: a run in which the account is deactivated in between. */
  lemma PendingLoginWins() returns (ss: seq<State>, es: seq<Event>)
    ensures Run(ss, es) && es == [SetAccount(7, true), Login(0, 7, true), SetAccount(7, false), IssueFirst(0, 1)]
    ensures ss[4].accounts == map[7 := false] && ss[4].store == map[1 := 7]
  {
    es := [SetAccount(7, true), Login(0, 7, true), SetAccount(7, false), IssueFirst(0, 1)];
    var s := START.(accounts := map[7 := true]);
    var t := START.(accounts := map[7 := false]);
    ss := [START, s, s.(logins := map[0 := 7]), t.(logins := map[0 := 7]), IssueTokens(t, 1, Token(7, 1, None))];
    assert Moves(ss, es, 0);
    assert Moves(ss, es, 1);
    assert Moves(ss, es, 2);
    assert Without(map[0 := 7], 0) == map[];
    assert Moves(ss, es, 3);
  }

  // ---------- the service ----------

  /** The service, one method for each stretch of code between two awaits that can matter. `logins` and
      `refreshes` stand for the suspended calls, `minted` for what the signatures of the tokens vouch
      for. */
  class AuthService {
    var store: map<Jti, UserId>
    var accounts: map<UserId, bool>
    var logins: map<RequestId, UserId>
    var refreshes: map<RequestId, Refresh>
    var minted: map<Jti, Token>

    function Current(): State
      reads this
    {
      State(store, accounts, logins, refreshes, minted)
    }

    ghost predicate Valid()
      reads this
    {
      Inv(Current())
    }

    /** The request is not being handled already. */
    predicate NewRequest(request: RequestId)
      reads this
    {
      request !in logins && request !in refreshes
    }

    constructor ()
      ensures Valid() && Current() == START
    {
      store, accounts, logins, refreshes, minted := map[], map[], map[], map[], map[];
    }

    /** `_issue_tokens`, with the jti that `create_refresh_token` drew. */
    method StoreToken(jti: Jti, token: Token)
      modifies this`store, this`minted
      ensures Current() == IssueTokens(old(Current()), jti, token)
      ensures store == old(store)[jti := token.subject] && minted == old(minted)[jti := token]
    {
      minted := minted[jti := token];
      store := store[jti := token.subject];
    }

    /** `authenticate` up to the commit of the login time. */
    method Authenticate(request: RequestId, user: UserId, passwordOk: bool) returns (admitted: bool)
      requires Valid() && NewRequest(request)
      modifies this`logins
      ensures Valid()
      ensures Current() == Step(old(Current()), Login(request, user, passwordOk))
      ensures admitted == (user in accounts && accounts[user] && passwordOk)
      ensures logins == if admitted then old(logins)[request := user] else old(logins)
    {
      StepKeepsInv(Current(), Login(request, user, passwordOk));
      if user !in accounts { return false; }
      if !passwordOk { return false; }
      if !accounts[user] { return false; }
      logins := logins[request := user];
      admitted := true;
    }

    /** The rest of `authenticate`: the first token is issued to the user that was checked. It is the only
        holder of its lineage. */
    method FinishLogin(request: RequestId, jti: Jti)
      requires Valid() && request in logins && jti !in minted
      modifies this
      ensures Valid() && Current() == Step(old(Current()), IssueFirst(request, jti))
      ensures store == old(store)[jti := old(logins)[request]] && logins == old(logins) - {request}
      ensures minted == old(minted)[jti := Token(old(logins)[request], jti, None)]
      ensures accounts == old(accounts) && refreshes == old(refreshes)
      ensures forall h | Holds(Current(), h, jti) :: h == Live(jti)
    {
      StepKeepsInv(Current(), IssueFirst(request, jti));
      var token := Token(logins[request], jti, None);
      logins := Without(logins, request);
      StoreToken(jti, token);
      assert Holds(Current(), Live(jti), jti);
    }

    /** `refresh_tokens` up to and including GETDEL: of a token only the first presentation gets past it. */
    method BeginRefresh(request: RequestId, jti: Jti) returns (consumed: bool)
      requires Valid() && NewRequest(request)
      modifies this
      ensures Valid() && Current() == Step(old(Current()), Consume(request, jti))
      ensures consumed == (jti in old(minted) && jti in old(store))
      ensures jti in minted ==> jti !in store
      ensures !consumed ==> Current() == old(Current())
      ensures consumed ==> store == old(store) - {jti} && refreshes == old(refreshes)[request := Consumed(jti)]
      ensures accounts == old(accounts) && logins == old(logins) && minted == old(minted)
    {
      StepKeepsInv(Current(), Consume(request, jti));
      if jti !in minted { return false; }
      if jti !in store { return false; }
      store := Without(store, jti);
      refreshes := refreshes[request := Consumed(jti)];
      consumed := true;
    }

    /** The user lookup by the token's subject. */
    method CheckUser(request: RequestId) returns (found: bool)
      requires Valid() && request in refreshes && refreshes[request].Consumed?
      modifies this
      ensures Valid() && Current() == Step(old(Current()), LookUp(request))
      ensures found == Ready(Current(), request)
      ensures found == SubjectActive(Current(), old(refreshes)[request].jti)
      ensures found ==> refreshes == old(refreshes)[request := Vetted(old(refreshes)[request].jti,
                                                                     minted[old(refreshes)[request].jti].subject)]
      ensures !found ==> refreshes == old(refreshes) - {request}
      ensures store == old(store) && accounts == old(accounts) && logins == old(logins) && minted == old(minted)
    {
      StepKeepsInv(Current(), LookUp(request));
      assert RefreshOk(Current(), request);
      var jti := refreshes[request].jti;
      var user := minted[jti].subject;
      if user !in accounts || !accounts[user] {
        refreshes := Without(refreshes, request);
        return false;
      }
      refreshes := refreshes[request := Vetted(jti, user)];
      found := true;
    }

    /** The rest of `refresh_tokens`: the successor is issued to the user that was looked up, who is the
        subject of the token it replaces, and it alone then holds the lineage. */
    method FinishRefresh(request: RequestId, jti: Jti)
      requires Valid() && Ready(Current(), request) && jti !in minted
      modifies this
      ensures Valid() && Current() == Step(old(Current()), Issue(request, jti))
      ensures var parent := old(refreshes)[request].jti;
        && store == old(store)[jti := old(minted)[parent].subject] && refreshes == old(refreshes) - {request}
        && minted == old(minted)[jti := Token(old(minted)[parent].subject, old(minted)[parent].lineage, Some(parent))]
        && accounts == old(accounts) && logins == old(logins)
        && forall h | Holds(Current(), h, minted[jti].lineage) :: h == Live(jti)
    {
      StepKeepsInv(Current(), Issue(request, jti));
      assert RefreshOk(Current(), request);
      var r := refreshes[request];
      var token := Token(r.user, minted[r.jti].lineage, Some(r.jti));
      refreshes := Without(refreshes, request);
      StoreToken(jti, token);
      assert Holds(Current(), Live(jti), token.lineage);
    }

    /** `logout`. */
    method EndSession(jti: Jti) returns (valid: bool)
      requires Valid()
      modifies this`store
      ensures Valid() && Current() == Step(old(Current()), Logout(jti))
      ensures valid == (jti in minted) && store == old(store) - {jti}
    {
      StepKeepsInv(Current(), Logout(jti));
      assert LiveOk(Current(), jti);
      if jti !in minted { return false; }
      store := Without(store, jti);
      valid := true;
    }
  }
}
