// The invariant of the step machine: every flow, code, token and family is a
// linear resource with at most one holder, and every record is faithful to the
// authorization or grant it descends from.
module LifecycleInvariant {
  import opened Wrappers
  import opened OAuth
  import opened TokenStore
  import opened FlowStore
  import opened Lifecycle

  // ---------- Linear resources ----------

  datatype Kind = Flows | Codes | RefreshTokens | Families

  // A resource is in its store, in one request, or has become something else.
  datatype Holder = InStore(key: Id) | InFlight(pid: Id) | Became(into: Id)

  // Stored and not consumed.
  predicate Live(s: State, t: Id) {
    t in s.tokens && s.tokens[t].consumedAt.None?
  }

  function Flow(s: State, h: Holder): Option<Id> {
    match h
    case InStore(f) => if f in s.flows then Some(f) else None
    case InFlight(p) => if p in s.procs && s.procs[p].HoldingFlow? then Some(s.procs[p].flow.flowId) else None
    case Became(c) =>
      if c in s.hist.issued && s.hist.issued[c].origin.FromFlow? then Some(s.hist.issued[c].origin.flowId) else None
  }

  function Code(s: State, h: Holder): Option<Id> {
    match h
    case InStore(c) => if c in s.codes then Some(c) else None
    case InFlight(p) => if p in s.procs && s.procs[p].HoldingCode? then Some(s.procs[p].code) else None
    case Became(g) => if g in s.hist.grants && s.hist.grants[g].Exchanged? then Some(s.hist.grants[g].code) else None
  }

  function Token(s: State, h: Holder): Option<Id> {
    match h
    case InStore(t) => if Live(s, t) then Some(t) else None
    case InFlight(p) => if p in s.procs && s.procs[p].Minting? then s.procs[p].parent else None
    case Became(t) => if t in s.hist.minted then s.hist.minted[t].parent else None
  }

  function Family(s: State, h: Holder): Option<Id> {
    match h
    case InStore(t) => if Live(s, t) then Some(s.tokens[t].payload.family) else None
    case InFlight(p) => if p in s.procs && s.procs[p].Minting? then Some(s.procs[p].family) else None
    case Became(_) => None
  }

  // The resource of this kind that the holder has, if any.
  function Held(s: State, k: Kind, h: Holder): Option<Id> {
    match k
    case Flows => Flow(s, h)
    case Codes => Code(s, h)
    case RefreshTokens => Token(s, h)
    case Families => Family(s, h)
  }

  predicate Known(hist: History, k: Kind, r: Id) {
    match k
    case Flows => r in hist.authorized
    case Codes => r in hist.issued
    case RefreshTokens => r in hist.minted
    case Families => r in hist.grants
  }

  // No two holders have the same resource.
  ghost predicate Linear(s: State) {
    forall k, h, h' | Held(s, k, h).Some? && Held(s, k, h) == Held(s, k, h') :: h == h'
  }

  // ---------- Faithful records ----------

  ghost predicate SameFlow(a: FlowRecord, b: FlowRecord) {
    a.(methodState := None) == b.(methodState := None)
  }

  ghost predicate FaithfulFlow(hist: History, flow: FlowRecord) {
    flow.flowId in hist.authorized && SameFlow(flow, hist.authorized[flow.flowId].record)
  }

  ghost predicate FaithfulAuthorization(flowId: Id, a: Authorization) {
    var v := ValidateAuthorize(a.cfg, a.request);
    v.Ok? && exists d, expiresAt :: a.record == NewFlow(a.cfg, v.value, a.request, flowId, d, expiresAt)
  }

  ghost predicate FaithfulIssue(hist: History, i: Issued) {
    i.origin.FromFlow? ==>
      i.origin.flowId in hist.authorized
      && exists subject, at :: i.payload == Snapshot(hist.authorized[i.origin.flowId].record, subject, at)
  }

  ghost predicate FaithfulGrant(sha: string -> string, hist: History, g: Grant) {
    g.Exchanged? ==>
      && g.code in hist.issued
      && g.request.code == g.code
      && var payload := hist.issued[g.code].payload;
         && ValidateExchange(sha, g.cfg, payload, g.request).Ok?
         && g.line == GrantedLine(payload, g.line.claim, g.request.dpopJkt)
         && g.scopes == payload.scopes
  }

  // A token (or a token about to be minted) with this parent, line and scopes belongs to this family.
  ghost predicate Descends(hist: History, family: Id, parent: Option<Id>, line: Line, scopes: seq<string>) {
    && family in hist.grants
    && line == hist.grants[family].line
    && (parent.None? ==> scopes == hist.grants[family].scopes)
    && (parent.Some? ==>
          && parent.value in hist.minted
          && hist.minted[parent.value].payload.family == family
          && Subset(scopes, hist.minted[parent.value].payload.scopes))
  }

  ghost predicate FaithfulMint(hist: History, m: Mint) {
    Descends(hist, m.payload.family, m.parent, m.payload.line, m.payload.scopes)
  }

  ghost predicate FaithfulHistory(sha: string -> string, hist: History) {
    && (forall f | f in hist.authorized :: FaithfulAuthorization(f, hist.authorized[f]))
    && (forall c | c in hist.issued :: FaithfulIssue(hist, hist.issued[c]))
    && (forall g | g in hist.grants :: FaithfulGrant(sha, hist, hist.grants[g]))
    && (forall t | t in hist.minted :: FaithfulMint(hist, hist.minted[t]))
  }

  ghost predicate FaithfulHandler(hist: History, h: Handler) {
    match h
    case HoldingFlow(flow) => FaithfulFlow(hist, flow)
    case HoldingCode(c, payload, req) => c in hist.issued && payload == hist.issued[c].payload && req.code == c
    case Gating(req, peeked) => req.token in hist.minted && hist.minted[req.token].payload == peeked
    case Consuming(t, _, purpose) => purpose.Rotate? ==> t in hist.minted
    case Minting(family, parent, line, scopes) => Descends(hist, family, parent, line, scopes)
    case Sweeping(family) => family in hist.grants
    case _ => true
  }

  ghost predicate FaithfulStores(s: State) {
    && (forall f | f in s.flows :: s.flows[f].record.flowId == f && FaithfulFlow(s.hist, s.flows[f].record))
    && (forall c | c in s.codes :: c in s.hist.issued && s.codes[c].ciphertext.payload == s.hist.issued[c].payload)
    && (forall t | t in s.tokens :: t in s.hist.minted && s.tokens[t].payload == s.hist.minted[t].payload)
    && (forall p | p in s.procs :: FaithfulHandler(s.hist, s.procs[p]))
  }

  // ---------- Consumption ----------

  // A successful consume leaves its mark for good, and a failed claim on a token
  // that was ever issued keeps having an explanation.
  ghost predicate Explained(s: State) {
    && (forall t | t in s.hist.spent :: t in s.hist.minted && !Live(s, t))
    && (forall p | p in s.procs :: Explains(s.hist, s.tokens, s.procs[p]))
  }

  ghost predicate Explains(hist: History, tokens: Tokens, h: Handler) {
    h.LookingUp? && h.issued ==> h.token in hist.minted && !Claimable(tokens, h.token, h.at)
  }

  ghost predicate Faithful(sha: string -> string, s: State) {
    FaithfulHistory(sha, s.hist) && FaithfulStores(s) && Explained(s)
  }

  ghost predicate Inv(sha: string -> string, s: State) {
    Linear(s) && Faithful(sha, s)
  }

  // Whatever is held was authorized, issued, granted or minted.
  lemma Accounted(sha: string -> string, s: State, k: Kind, h: Holder)
    requires Faithful(sha, s) && Held(s, k, h).Some?
    ensures Known(s.hist, k, Held(s, k, h).value)
  {
    if k.Families? && h.InStore? {
      assert FaithfulMint(s.hist, s.hist.minted[h.key]);
    }
  }

  // ---------- Linearity is kept ----------

  // Nothing of this kind has a new holder, except that `to` or `born` may have
  // what `from` gave up, and `born` something never seen before.
  ghost predicate Passed(s: State, s': State, k: Kind, from: Holder, to: Holder, born: Holder) {
    && (forall h | h != to && h != born :: Held(s', k, h).None? || Held(s', k, h) == Held(s, k, h))
    && (Held(s', k, to).None? || Held(s', k, to) == Held(s, k, to) || GaveUp(s, s', k, from, to))
    && (born == to || Held(s', k, born).None? || Held(s', k, born) == Held(s, k, born)
        || !Known(s.hist, k, Held(s', k, born).value)
        || (Held(s', k, to).None? && GaveUp(s, s', k, from, born)))
  }

  ghost predicate GaveUp(s: State, s': State, k: Kind, from: Holder, to: Holder) {
    Held(s', k, to) == Held(s, k, from) && Held(s', k, from).None?
  }

  ghost predicate PassesAll(s: State, s': State, from: Holder, to: Holder, born: Holder) {
    forall k :: Passed(s, s', k, from, to, born)
  }

  // With `f` what each holder had and `g` what it has now: if `f` gave nothing
  // out twice, neither does `g`.
  lemma NothingTwice(f: Holder -> Option<Id>, g: Holder -> Option<Id>, from: Holder, to: Holder, born: Holder,
                     h: Holder, h': Holder)
    requires forall x, y | f(x).Some? && f(x) == f(y) :: x == y
    requires forall x | x != to && x != born :: g(x).None? || g(x) == f(x)
    requires g(to).None? || g(to) == f(to) || (g(to) == f(from) && g(from).None?)
    requires born == to || g(born).None? || g(born) == f(born)
             || (forall x :: f(x) != g(born))
             || (g(to).None? && g(born) == f(from) && g(from).None?)
    requires g(h).Some? && g(h) == g(h')
    ensures h == h'
  {
    var b := if g(h) == f(h) then h else from;
    var b' := if g(h') == f(h') then h' else from;
    if f(b) == g(h) && f(b') == g(h) {
      assert b == b';
    }
  }

  lemma PassedLinear(s: State, s': State, k: Kind, from: Holder, to: Holder, born: Holder, h: Holder, h': Holder)
    requires Linear(s) && Passed(s, s', k, from, to, born)
    requires forall x | Held(s, k, x).Some? :: Known(s.hist, k, Held(s, k, x).value)
    requires Held(s', k, h).Some? && Held(s', k, h) == Held(s', k, h')
    ensures h == h'
  {
    NothingTwice(x => Held(s, k, x), x => Held(s', k, x), from, to, born, h, h');
  }

  lemma AuthorizeHolds(s: State, pid: Id, cfg: TenantConfig, req: AuthorizeRequest, f: Id,
                       d: FlowDetails, ttl: int, k: Kind, h: Holder)
    requires DoAuthorize(s, pid, cfg, req, f, d, ttl).Some? && h != InStore(f)
    ensures var s' := DoAuthorize(s, pid, cfg, req, f, d, ttl).value;
            Held(s', k, h).None? || Held(s', k, h) == Held(s, k, h)
  {
  }

  lemma AuthorizePasses(s: State, pid: Id, cfg: TenantConfig, req: AuthorizeRequest, f: Id,
                        d: FlowDetails, ttl: int)
    requires DoAuthorize(s, pid, cfg, req, f, d, ttl).Some?
    ensures PassesAll(s, DoAuthorize(s, pid, cfg, req, f, d, ttl).value, InFlight(pid), InFlight(pid), InStore(f))
  {
    var s' := DoAuthorize(s, pid, cfg, req, f, d, ttl).value;
    forall k, h | h != InStore(f)
      ensures Held(s', k, h).None? || Held(s', k, h) == Held(s, k, h)
    {
      AuthorizeHolds(s, pid, cfg, req, f, d, ttl, k, h);
    }
  }

  lemma TakePasses(s: State, pid: Id, f: Id)
    requires pid in s.procs ==> s.procs[pid].Peeked?
    requires f in s.flows && s.flows[f].record.flowId == f
    ensures PassesAll(s, Take(s, pid, f), InStore(f), InFlight(pid), InFlight(pid))
  {
  }

  lemma IssuePasses(s: State, pid: Id, c: Id, kid: string, subject: string, at: int)
    requires DoIssueCode(s, pid, c, kid, subject, at).Some?
    ensures PassesAll(s, DoIssueCode(s, pid, c, kid, subject, at).value, InFlight(pid), Became(c), InStore(c))
  {
    var s' := DoIssueCode(s, pid, c, kid, subject, at).value;
    assert Passed(s, s', Flows, InFlight(pid), Became(c), InStore(c)) && Passed(s, s', Codes, InFlight(pid), Became(c), InStore(c));
    assert Passed(s, s', RefreshTokens, InFlight(pid), Became(c), InStore(c)) && Passed(s, s', Families, InFlight(pid), Became(c), InStore(c));
  }

  lemma UnsolicitedPasses(s: State, c: Id, kid: string, payload: CodePayload)
    requires DoIssueUnsolicited(s, c, kid, payload).Some?
    ensures PassesAll(s, DoIssueUnsolicited(s, c, kid, payload).value, Became(c), Became(c), InStore(c))
  {
  }

  lemma RedeemPasses(s: State, pid: Id, req: ExchangeRequest, keys: set<string>)
    requires DoRedeem(s, pid, req, keys).Some?
    ensures PassesAll(s, DoRedeem(s, pid, req, keys).value, InStore(req.code), InFlight(pid), InFlight(pid))
  {
  }

  lemma OpenPasses(s: State, pid: Id, g: Id, grant: Grant)
    requires g !in s.hist.grants
    requires if grant.Exchanged? then pid in s.procs && s.procs[pid].HoldingCode? && s.procs[pid].code == grant.code
             else pid !in s.procs
    ensures PassesAll(s, OpenFamily(s, pid, g, grant), InFlight(pid), Became(g), InFlight(pid))
  {
    var s' := OpenFamily(s, pid, g, grant);
    assert Passed(s, s', Flows, InFlight(pid), Became(g), InFlight(pid)) && Passed(s, s', Codes, InFlight(pid), Became(g), InFlight(pid));
    assert Passed(s, s', RefreshTokens, InFlight(pid), Became(g), InFlight(pid)) && Passed(s, s', Families, InFlight(pid), Became(g), InFlight(pid));
  }

  lemma SaveTokenHolds(s: State, pid: Id, t: Id, subjectId: string, at: int, ttl: int, k: Kind, h: Holder)
    requires DoSaveToken(s, pid, t, subjectId, at, ttl).Some? && h != Became(t) && h != InStore(t)
    ensures var s' := DoSaveToken(s, pid, t, subjectId, at, ttl).value;
            Held(s', k, h).None? || Held(s', k, h) == Held(s, k, h)
  {
  }

  lemma SaveTokenPasses(s: State, pid: Id, t: Id, subjectId: string, at: int, ttl: int)
    requires DoSaveToken(s, pid, t, subjectId, at, ttl).Some?
    ensures PassesAll(s, DoSaveToken(s, pid, t, subjectId, at, ttl).value, InFlight(pid), Became(t), InStore(t))
  {
    var s' := DoSaveToken(s, pid, t, subjectId, at, ttl).value;
    forall k, h | h != Became(t) && h != InStore(t)
      ensures Held(s', k, h).None? || Held(s', k, h) == Held(s, k, h)
    {
      SaveTokenHolds(s, pid, t, subjectId, at, ttl, k, h);
    }
  }

  lemma SpendPasses(s: State, pid: Id, t: Id, h: Option<Handler>)
    requires pid in s.procs && s.procs[pid].Consuming?
    requires Live(s, t)
    requires h.Some? ==> h.value.Minting? && h.value.parent == Some(t) && h.value.family == s.tokens[t].payload.family
    ensures PassesAll(s, Spend(s, pid, t, Consumed(s.tokens, t, s.now), h), InStore(t), InFlight(pid), InFlight(pid))
  {
  }

  // ---------- Steps that hand nothing over ----------

  predicate Creditless(h: Handler) {
    !h.HoldingFlow? && !h.HoldingCode? && !h.Minting?
  }

  // Stores lose rows or change a flow's method state; requests end or take up a role without credit.
  ghost predicate Quieter(s: State, s': State) {
    && s'.hist == s.hist
    && (forall f | f in s'.flows :: f in s.flows && SameFlow(s'.flows[f].record, s.flows[f].record))
    && (forall c | c in s'.codes :: c in s.codes && s'.codes[c] == s.codes[c])
    && (forall t | t in s'.tokens :: t in s.tokens && s'.tokens[t] == s.tokens[t])
    && (forall p | p in s'.procs && !(p in s.procs && s'.procs[p] == s.procs[p]) ::
          && Creditless(s'.procs[p])
          && FaithfulHandler(s.hist, s'.procs[p])
          && Explains(s.hist, s.tokens, s'.procs[p]))
  }

  lemma QuieterHolds(s: State, s': State, k: Kind, h: Holder)
    requires Quieter(s, s')
    ensures Held(s', k, h).None? || Held(s', k, h) == Held(s, k, h)
  {
  }

  lemma QuieterPasses(s: State, s': State, h: Holder)
    requires Quieter(s, s')
    ensures PassesAll(s, s', h, h, h)
  {
    forall k, x
      ensures Held(s', k, x).None? || Held(s', k, x) == Held(s, k, x)
    {
      QuieterHolds(s, s', k, x);
    }
  }

  lemma QuieterFaithful(s: State, s': State)
    requires Quieter(s, s') && FaithfulStores(s) && Explained(s)
    ensures FaithfulStores(s') && Explained(s')
  {
  }

  // Whatever the step, if it happens it is quieter.
  ghost predicate Quiet(s: State, s': Option<State>) {
    s'.Some? ==> Quieter(s, s'.value)
  }

  lemma MethodStateQuiet(s: State, pid: Id, st: string)
    ensures Quiet(s, DoSaveMethodState(s, pid, st))
  {
  }

  lemma ReadRouteQuiet(s: State, pid: Id, f: Id, tenantId: string, methodId: string)
    ensures Quiet(s, DoReadRoute(s, pid, f, tenantId, methodId))
  {
  }

  lemma PeekQuiet(s: State, pid: Id, req: RefreshRequest)
    requires FaithfulStores(s)
    ensures Quiet(s, DoPeek(s, pid, req))
  {
  }

  lemma PresentQuiet(s: State, pid: Id, req: RevokeRequest, t: Id, window: int)
    ensures Quiet(s, DoPeekRevoke(s, pid, req)) && Quiet(s, DoPresent(s, pid, t, window))
  {
  }

  lemma GateQuiet(sha: string -> string, s: State, pid: Id, cfg: TenantConfig, window: int)
    requires FaithfulStores(s)
    ensures Quiet(s, DoGate(sha, s, pid, cfg, window))
  {
  }

  lemma GateRevokeQuiet(sha: string -> string, s: State, pid: Id, cfg: TenantConfig)
    ensures Quiet(s, DoGateRevoke(sha, s, pid, cfg))
  {
  }

  // A row that turns out to be a replay belongs to a family that was opened.
  lemma RowsHaveFamilies(sha: string -> string, s: State, t: Id)
    requires FaithfulHistory(sha, s.hist) && FaithfulStores(s) && t in s.tokens
    ensures s.tokens[t].payload.family in s.hist.grants
  {
    assert FaithfulMint(s.hist, s.hist.minted[t]);
  }

  lemma BecomeQuiet(s: State, pid: Id, h: Handler)
    requires Creditless(h) && FaithfulHandler(s.hist, h) && Explains(s.hist, s.tokens, h)
    ensures Quieter(s, Become(s, pid, h))
  {
  }

  lemma FinishQuiet(s: State, pid: Id)
    ensures Quieter(s, Finish(s, pid))
  {
  }

  lemma LookUpQuiet(sha: string -> string, s: State, pid: Id)
    requires FaithfulHistory(sha, s.hist) && FaithfulStores(s)
    requires pid in s.procs && s.procs[pid].LookingUp?
    ensures Quieter(s, DoLookUp(s, pid).value)
  {
    var h := s.procs[pid];
    if Explain(s.tokens, h.token, h.window, h.at).Replayed? {
      RowsHaveFamilies(sha, s, h.token);
      BecomeQuiet(s, pid, Sweeping(s.tokens[h.token].payload.family));
    } else {
      FinishQuiet(s, pid);
    }
  }

  lemma SweepQuiet(s: State, pid: Id)
    ensures Quiet(s, DoSweep(s, pid))
  {
  }

  lemma DeletionQuiet(s: State, pid: Id, t: Id)
    ensures Quiet(s, DoQueryFamily(s, pid)) && Quiet(s, DoDeleteItem(s, pid, t))
  {
  }

  lemma RemovalQuiet(sha: string -> string, s: State, a: Action)
    requires a.RevokeSubject? || a.Collect? || a.Tick? || a.Abort?
    ensures Quiet(s, Step(sha, s, a))
  {
    if a.Abort? {
      FinishQuiet(s, a.pid);
    } else if a.RevokeSubject? || a.Tick? {
      assert Quieter(s, HouseStep(s, a).value);
    } else {
      assert Quieter(s, s.(flows := s.flows - a.flowIds, codes := s.codes - a.codeIds, tokens := s.tokens - a.tokenIds));
    }
  }

  // A consume that fails, atomically or by a missed claim.
  lemma MissQuiet(s: State, pid: Id)
    requires FaithfulStores(s)
    requires pid in s.procs && s.procs[pid].Consuming?
    requires !Claimable(s.tokens, s.procs[pid].token, s.now)
    ensures Quiet(s, DoClaim(s, pid)) && Quiet(s, DoConsumeAtomically(s, pid))
  {
  }

  // Consuming a flow or a code that is absent, expired, mismatched or unreadable.
  lemma TakeMissQuiet(s: State, pid: Id)
    requires DoTakeFlow(s, pid).Some? && pid !in DoTakeFlow(s, pid).value.procs
    ensures Quiet(s, DoTakeFlow(s, pid))
  {
  }

  lemma CallbackMissQuiet(s: State, pid: Id, e: Envelope, host: string, path: string)
    requires DoCallback(s, pid, e, host, path).Some? && pid !in DoCallback(s, pid, e, host, path).value.procs
    ensures Quiet(s, DoCallback(s, pid, e, host, path))
  {
  }

  lemma RedeemMissQuiet(s: State, pid: Id, req: ExchangeRequest, keys: set<string>)
    requires DoRedeem(s, pid, req, keys).Some? && pid !in DoRedeem(s, pid, req, keys).value.procs
    ensures Quiet(s, DoRedeem(s, pid, req, keys))
  {
  }

  // ---------- Faithfulness is kept when history grows ----------

  // History only grows, and what was faithful to it stays so.
  ghost predicate Grows(a: History, b: History) {
    && (forall k | k in a.authorized :: k in b.authorized && b.authorized[k] == a.authorized[k])
    && (forall k | k in a.issued :: k in b.issued && b.issued[k] == a.issued[k])
    && (forall k | k in a.grants :: k in b.grants && b.grants[k] == a.grants[k])
    && (forall k | k in a.minted :: k in b.minted && b.minted[k] == a.minted[k])
    && (forall k | k in a.spent :: k in b.spent)
  }

  lemma GrowthKeeps(sha: string -> string, a: History, b: History)
    requires Grows(a, b) && FaithfulHistory(sha, a)
    ensures forall f | f in a.authorized :: FaithfulAuthorization(f, b.authorized[f])
    ensures forall c | c in a.issued :: FaithfulIssue(b, b.issued[c])
    ensures forall g | g in a.grants :: FaithfulGrant(sha, b, b.grants[g])
    ensures forall t | t in a.minted :: FaithfulMint(b, b.minted[t])
    ensures forall h | FaithfulHandler(a, h) :: FaithfulHandler(b, h)
  {
  }

  // Everything a step adds is faithful; everything else was there before.
  ghost predicate Adds(sha: string -> string, s: State, s': State) {
    && Grows(s.hist, s'.hist)
    && (forall f | f in s'.hist.authorized && f !in s.hist.authorized :: FaithfulAuthorization(f, s'.hist.authorized[f]))
    && (forall c | c in s'.hist.issued && c !in s.hist.issued :: FaithfulIssue(s'.hist, s'.hist.issued[c]))
    && (forall g | g in s'.hist.grants && g !in s.hist.grants :: FaithfulGrant(sha, s'.hist, s'.hist.grants[g]))
    && (forall t | t in s'.hist.minted && t !in s.hist.minted :: FaithfulMint(s'.hist, s'.hist.minted[t]))
  }

  ghost predicate AddsRows(s: State, s': State) {
    && (forall f | f in s'.flows && !(f in s.flows && s'.flows[f] == s.flows[f]) ::
          s'.flows[f].record.flowId == f && FaithfulFlow(s'.hist, s'.flows[f].record))
    && (forall c | c in s'.codes && !(c in s.codes && s'.codes[c] == s.codes[c]) ::
          c in s'.hist.issued && s'.codes[c].ciphertext.payload == s'.hist.issued[c].payload)
    && (forall t | t in s'.tokens && !(t in s.tokens && s'.tokens[t].payload == s.tokens[t].payload) ::
          t in s'.hist.minted && s'.tokens[t].payload == s'.hist.minted[t].payload)
    && (forall p | p in s'.procs && !(p in s.procs && s'.procs[p] == s.procs[p]) ::
          FaithfulHandler(s'.hist, s'.procs[p]) && !s'.procs[p].LookingUp?)
  }

  // Tokens come alive only when minted, and are spent only when live.
  ghost predicate AddsLife(s: State, s': State) {
    && (forall t | Live(s', t) :: Live(s, t) || t !in s.hist.minted)
    && (forall t | t in s'.hist.spent && t !in s.hist.spent :: t in s.hist.minted && !Live(s', t))
    && (forall t | t in s.hist.minted && t in s'.tokens :: t in s.tokens && s'.tokens[t].payload == s.tokens[t].payload)
  }

  lemma HistoryStaysFaithful(sha: string -> string, s: State, s': State)
    requires FaithfulHistory(sha, s.hist) && Adds(sha, s, s')
    ensures FaithfulHistory(sha, s'.hist)
  {
    GrowthKeeps(sha, s.hist, s'.hist);
  }

  lemma StoresStayFaithful(sha: string -> string, s: State, s': State)
    requires FaithfulHistory(sha, s.hist) && FaithfulStores(s) && Adds(sha, s, s') && AddsRows(s, s')
    ensures FaithfulStores(s')
  {
    assert forall h | FaithfulHandler(s.hist, h) :: FaithfulHandler(s'.hist, h) by {
      GrowthKeeps(sha, s.hist, s'.hist);
    }
  }

  lemma AddsFaithful(sha: string -> string, s: State, s': State)
    requires Faithful(sha, s) && Adds(sha, s, s') && AddsRows(s, s') && AddsLife(s, s')
    ensures Faithful(sha, s')
  {
    HistoryStaysFaithful(sha, s, s');
    StoresStayFaithful(sha, s, s');
  }

  lemma AuthorizeAdds(sha: string -> string, s: State, pid: Id, cfg: TenantConfig, req: AuthorizeRequest,
                      f: Id, d: FlowDetails, ttl: int)
    requires DoAuthorize(s, pid, cfg, req, f, d, ttl).Some?
    ensures var s' := DoAuthorize(s, pid, cfg, req, f, d, ttl).value; Adds(sha, s, s')
  {
    var s' := DoAuthorize(s, pid, cfg, req, f, d, ttl).value;
    assert s'.hist.authorized[f].record == NewFlow(cfg, ValidateAuthorize(cfg, req).value, req, f, d, s.now + ttl);
  }

  lemma AuthorizeRows(sha: string -> string, s: State, pid: Id, cfg: TenantConfig, req: AuthorizeRequest,
                      f: Id, d: FlowDetails, ttl: int)
    requires DoAuthorize(s, pid, cfg, req, f, d, ttl).Some?
    ensures var s' := DoAuthorize(s, pid, cfg, req, f, d, ttl).value; AddsRows(s, s') && AddsLife(s, s')
  {
    var s' := DoAuthorize(s, pid, cfg, req, f, d, ttl).value;
    assert s'.hist.authorized[f].record == NewFlow(cfg, ValidateAuthorize(cfg, req).value, req, f, d, s.now + ttl);
  }

  lemma TakeAdds(sha: string -> string, s: State, pid: Id, f: Id)
    requires FaithfulStores(s) && f in s.flows
    ensures var s' := Take(s, pid, f); Adds(sha, s, s')
  {
  }

  lemma TakeRows(sha: string -> string, s: State, pid: Id, f: Id)
    requires FaithfulStores(s) && f in s.flows
    ensures var s' := Take(s, pid, f); AddsRows(s, s') && AddsLife(s, s')
  {
  }

  lemma IssueAdds(sha: string -> string, s: State, pid: Id, c: Id, kid: string, subject: string, at: int)
    requires FaithfulStores(s) && DoIssueCode(s, pid, c, kid, subject, at).Some?
    ensures var s' := DoIssueCode(s, pid, c, kid, subject, at).value; Adds(sha, s, s') && AddsRows(s, s') && AddsLife(s, s')
  {
    var s' := DoIssueCode(s, pid, c, kid, subject, at).value;
    var flow := s.procs[pid].flow;
    assert s'.hist.issued[c].payload == Snapshot(s.hist.authorized[flow.flowId].record, subject, at);
  }

  lemma UnsolicitedAdds(sha: string -> string, s: State, c: Id, kid: string, payload: CodePayload)
    requires DoIssueUnsolicited(s, c, kid, payload).Some?
    ensures var s' := DoIssueUnsolicited(s, c, kid, payload).value; Adds(sha, s, s') && AddsRows(s, s') && AddsLife(s, s')
  {
  }

  lemma RedeemAdds(sha: string -> string, s: State, s': State, pid: Id, req: ExchangeRequest)
    requires FaithfulStores(s) && req.code in s.codes
    requires s' == Become(s, pid, HoldingCode(req.code, s.codes[req.code].ciphertext.payload, req)).(
                   codes := s.codes - {req.code})
    ensures Adds(sha, s, s')
  {
  }

  lemma RedeemRows(sha: string -> string, s: State, s': State, pid: Id, req: ExchangeRequest)
    requires FaithfulStores(s) && req.code in s.codes
    requires s' == Become(s, pid, HoldingCode(req.code, s.codes[req.code].ciphertext.payload, req)).(
                   codes := s.codes - {req.code})
    ensures AddsRows(s, s') && AddsLife(s, s')
  {
  }

  lemma OpenAdds(sha: string -> string, s: State, pid: Id, g: Id, grant: Grant)
    requires g !in s.hist.grants && FaithfulGrant(sha, s.hist, grant)
    ensures var s' := OpenFamily(s, pid, g, grant); Adds(sha, s, s')
  {
  }

  lemma OpenRows(sha: string -> string, s: State, pid: Id, g: Id, grant: Grant)
    requires g !in s.hist.grants && FaithfulGrant(sha, s.hist, grant)
    ensures var s' := OpenFamily(s, pid, g, grant); AddsRows(s, s') && AddsLife(s, s')
  {
  }

  lemma SaveTokenAdds(sha: string -> string, s: State, pid: Id, t: Id, subjectId: string, at: int, ttl: int)
    requires FaithfulStores(s) && DoSaveToken(s, pid, t, subjectId, at, ttl).Some?
    ensures var s' := DoSaveToken(s, pid, t, subjectId, at, ttl).value; Adds(sha, s, s')
  {
  }

  lemma SaveTokenRows(sha: string -> string, s: State, pid: Id, t: Id, subjectId: string, at: int, ttl: int)
    requires FaithfulStores(s) && DoSaveToken(s, pid, t, subjectId, at, ttl).Some?
    ensures var s' := DoSaveToken(s, pid, t, subjectId, at, ttl).value; AddsRows(s, s') && AddsLife(s, s')
  {
  }

  lemma SpendAdds(sha: string -> string, s: State, pid: Id, t: Id, h: Option<Handler>)
    requires FaithfulStores(s) && Live(s, t)
    requires h.Some? ==> h.value.Minting? && FaithfulHandler(s.hist, h.value)
    ensures var s' := Spend(s, pid, t, Consumed(s.tokens, t, s.now), h); Adds(sha, s, s')
  {
  }

  lemma SpendRows(sha: string -> string, s: State, pid: Id, t: Id, h: Option<Handler>)
    requires FaithfulStores(s) && Live(s, t)
    requires h.Some? ==> h.value.Minting? && FaithfulHandler(s.hist, h.value)
    ensures var s' := Spend(s, pid, t, Consumed(s.tokens, t, s.now), h); AddsRows(s, s') && AddsLife(s, s')
  {
  }

  // ---------- Every step keeps the invariant ----------

  lemma LinearAfter(sha: string -> string, s: State, s': State, from: Holder, to: Holder, born: Holder)
    requires Inv(sha, s) && PassesAll(s, s', from, to, born)
    ensures Linear(s')
  {
    forall k, h, h' | Held(s', k, h).Some? && Held(s', k, h) == Held(s', k, h')
      ensures h == h'
    {
      forall x | Held(s, k, x).Some?
        ensures Known(s.hist, k, Held(s, k, x).value)
      {
        Accounted(sha, s, k, x);
      }
      PassedLinear(s, s', k, from, to, born, h, h');
    }
  }

  lemma QuietInv(sha: string -> string, s: State, s': State)
    requires Inv(sha, s) && Quieter(s, s')
    ensures Inv(sha, s') && Grows(s.hist, s'.hist)
  {
    QuieterPasses(s, s', InStore(0));
    LinearAfter(sha, s, s', InStore(0), InStore(0), InStore(0));
    QuieterFaithful(s, s');
  }

  lemma HandoverInv(sha: string -> string, s: State, s': State, from: Holder, to: Holder, born: Holder)
    requires Inv(sha, s) && PassesAll(s, s', from, to, born)
    requires Adds(sha, s, s') && AddsRows(s, s') && AddsLife(s, s')
    ensures Inv(sha, s') && Grows(s.hist, s'.hist)
  {
    LinearAfter(sha, s, s', from, to, born);
    AddsFaithful(sha, s, s');
  }

  lemma TakeInv(sha: string -> string, s: State, pid: Id, f: Id)
    requires Inv(sha, s) && f in s.flows
    requires pid in s.procs ==> s.procs[pid].Peeked?
    ensures Inv(sha, Take(s, pid, f)) && Grows(s.hist, Take(s, pid, f).hist)
  {
    TakePasses(s, pid, f);
    TakeAdds(sha, s, pid, f);
    TakeRows(sha, s, pid, f);
    HandoverInv(sha, s, Take(s, pid, f), InStore(f), InFlight(pid), InFlight(pid));
  }

  lemma RedeemInv(sha: string -> string, s: State, pid: Id, req: ExchangeRequest, keys: set<string>)
    requires Inv(sha, s) && DoRedeem(s, pid, req, keys).Some?
    ensures Inv(sha, DoRedeem(s, pid, req, keys).value) && Grows(s.hist, DoRedeem(s, pid, req, keys).value.hist)
  {
    var s' := DoRedeem(s, pid, req, keys).value;
    if pid in s'.procs {
      RedeemPasses(s, pid, req, keys);
      RedeemAdds(sha, s, s', pid, req);
      RedeemRows(sha, s, s', pid, req);
      HandoverInv(sha, s, s', InStore(req.code), InFlight(pid), InFlight(pid));
    } else {
      RedeemMissQuiet(s, pid, req, keys);
      QuietInv(sha, s, s');
    }
  }

  lemma OpenInv(sha: string -> string, s: State, pid: Id, g: Id, grant: Grant)
    requires Inv(sha, s) && g !in s.hist.grants && FaithfulGrant(sha, s.hist, grant)
    requires if grant.Exchanged? then pid in s.procs && s.procs[pid].HoldingCode? && s.procs[pid].code == grant.code
             else pid !in s.procs
    ensures Inv(sha, OpenFamily(s, pid, g, grant)) && Grows(s.hist, OpenFamily(s, pid, g, grant).hist)
  {
    OpenPasses(s, pid, g, grant);
    OpenAdds(sha, s, pid, g, grant);
    OpenRows(sha, s, pid, g, grant);
    HandoverInv(sha, s, OpenFamily(s, pid, g, grant), InFlight(pid), Became(g), InFlight(pid));
  }

  lemma GrantInv(sha: string -> string, s: State, pid: Id, cfg: TenantConfig, claim: string, g: Id)
    requires Inv(sha, s) && DoGrantFamily(sha, s, pid, cfg, claim, g).Some?
    ensures Inv(sha, DoGrantFamily(sha, s, pid, cfg, claim, g).value) && Grows(s.hist, DoGrantFamily(sha, s, pid, cfg, claim, g).value.hist)
  {
    var s' := DoGrantFamily(sha, s, pid, cfg, claim, g).value;
    if pid in s'.procs {
      assert FaithfulHandler(s.hist, s.procs[pid]);
      OpenInv(sha, s, pid, g, s'.hist.grants[g]);
    } else {
      QuietInv(sha, s, s');
    }
  }

  lemma ConsumeInv(sha: string -> string, s: State, pid: Id)
    requires Inv(sha, s) && pid in s.procs && s.procs[pid].Consuming?
    ensures Inv(sha, DoClaim(s, pid).value) && Grows(s.hist, DoClaim(s, pid).value.hist)
    ensures Inv(sha, DoConsumeAtomically(s, pid).value) && Grows(s.hist, DoConsumeAtomically(s, pid).value.hist)
  {
    var c := s.procs[pid];
    if Claimable(s.tokens, c.token, s.now) {
      var h := Successor(c.token, c.purpose, s.tokens[c.token].payload);
      var s' := Spend(s, pid, c.token, Consumed(s.tokens, c.token, s.now), h);
      assert FaithfulMint(s.hist, s.hist.minted[c.token]);
      SpendPasses(s, pid, c.token, h);
      SpendAdds(sha, s, pid, c.token, h);
      SpendRows(sha, s, pid, c.token, h);
      HandoverInv(sha, s, s', InStore(c.token), InFlight(pid), InFlight(pid));
    } else {
      MissQuiet(s, pid);
      QuietInv(sha, s, DoClaim(s, pid).value);
      QuietInv(sha, s, DoConsumeAtomically(s, pid).value);
    }
  }

  lemma TakeFlowInv(sha: string -> string, s: State, pid: Id)
    requires Inv(sha, s) && DoTakeFlow(s, pid).Some?
    ensures Inv(sha, DoTakeFlow(s, pid).value) && Grows(s.hist, DoTakeFlow(s, pid).value.hist)
  {
    var s' := DoTakeFlow(s, pid).value;
    if pid in s'.procs {
      TakeInv(sha, s, pid, s.procs[pid].flowId);
    } else {
      TakeMissQuiet(s, pid);
      QuietInv(sha, s, s');
    }
  }

  lemma CallbackInv(sha: string -> string, s: State, pid: Id, e: Envelope, host: string, path: string)
    requires Inv(sha, s) && DoCallback(s, pid, e, host, path).Some?
    ensures Inv(sha, DoCallback(s, pid, e, host, path).value) && Grows(s.hist, DoCallback(s, pid, e, host, path).value.hist)
  {
    var s' := DoCallback(s, pid, e, host, path).value;
    if pid in s'.procs {
      TakeInv(sha, s, pid, e.flowId);
    } else {
      CallbackMissQuiet(s, pid, e, host, path);
      QuietInv(sha, s, s');
    }
  }

  lemma FlowStepInv(sha: string -> string, s: State, a: Action, s': State)
    requires Inv(sha, s) && OnFlows(a) && FlowStep(s, a) == Some(s')
    ensures Inv(sha, s') && Grows(s.hist, s'.hist)
  {
    match a {
      case Authorize(pid, cfg, req, f, d, ttl) =>
        AuthorizePasses(s, pid, cfg, req, f, d, ttl);
        AuthorizeAdds(sha, s, pid, cfg, req, f, d, ttl);
        AuthorizeRows(sha, s, pid, cfg, req, f, d, ttl);
        HandoverInv(sha, s, s', InFlight(pid), InFlight(pid), InStore(f));
      case SaveMethodState(pid, st) =>
        MethodStateQuiet(s, pid, st);
        QuietInv(sha, s, s');
      case TakeFlow(pid) => TakeFlowInv(sha, s, pid);
      case Callback(pid, e, host, path) => CallbackInv(sha, s, pid, e, host, path);
      case ReadRoute(pid, f, tenantId, methodId) =>
        ReadRouteQuiet(s, pid, f, tenantId, methodId);
        QuietInv(sha, s, s');
      case IssueCode(pid, c, kid, subject, at) =>
        IssuePasses(s, pid, c, kid, subject, at);
        IssueAdds(sha, s, pid, c, kid, subject, at);
        HandoverInv(sha, s, s', InFlight(pid), Became(c), InStore(c));
      case IssueUnsolicited(c, kid, payload) =>
        UnsolicitedPasses(s, c, kid, payload);
        UnsolicitedAdds(sha, s, c, kid, payload);
        HandoverInv(sha, s, s', Became(c), Became(c), InStore(c));
    }
  }

  lemma GrantStepInv(sha: string -> string, s: State, a: Action, s': State)
    requires Inv(sha, s) && OnGrants(a) && GrantStep(sha, s, a) == Some(s')
    ensures Inv(sha, s') && Grows(s.hist, s'.hist)
  {
    match a {
      case Redeem(pid, req, keys) => RedeemInv(sha, s, pid, req, keys);
      case GrantFamily(pid, cfg, claim, g) => GrantInv(sha, s, pid, cfg, claim, g);
      case GrantForeign(pid, g, line, scopes) => OpenInv(sha, s, pid, g, Foreign(line, scopes));
      case SaveToken(pid, t, subjectId, at, ttl) =>
        SaveTokenPasses(s, pid, t, subjectId, at, ttl);
        SaveTokenAdds(sha, s, pid, t, subjectId, at, ttl);
        SaveTokenRows(sha, s, pid, t, subjectId, at, ttl);
        HandoverInv(sha, s, s', InFlight(pid), Became(t), InStore(t));
    }
  }

  lemma GateStepInv(sha: string -> string, s: State, a: Action, s': State)
    requires Inv(sha, s) && OnGates(a) && GateStep(sha, s, a) == Some(s')
    ensures Inv(sha, s') && Grows(s.hist, s'.hist)
  {
    match a {
      case Peek(pid, req) => PeekQuiet(s, pid, req);
      case Gate(pid, cfg, window) => GateQuiet(sha, s, pid, cfg, window);
      case PeekRevoke(pid, req) => PresentQuiet(s, pid, req, 0, 0);
      case GateRevoke(pid, cfg) => GateRevokeQuiet(sha, s, pid, cfg);
      case Present(pid, t, window) => PresentQuiet(s, pid, RevokeRequest(0, None, None), t, window);
    }
    QuietInv(sha, s, s');
  }

  lemma ConsumeStepInv(sha: string -> string, s: State, a: Action, s': State)
    requires Inv(sha, s) && OnConsumption(a) && ConsumeStep(s, a) == Some(s')
    ensures Inv(sha, s') && Grows(s.hist, s'.hist)
  {
    if a.ConsumeAtomically? || a.Claim? {
      ConsumeInv(sha, s, a.pid);
    } else {
      match a {
        case LookUp(pid) => LookUpQuiet(sha, s, pid);
        case Sweep(pid) => SweepQuiet(s, pid);
        case QueryFamily(pid) => DeletionQuiet(s, pid, 0);
        case DeleteItem(pid, t) => DeletionQuiet(s, pid, t);
      }
      QuietInv(sha, s, s');
    }
  }

  lemma StepInv(sha: string -> string, s: State, a: Action, s': State)
    requires Inv(sha, s) && Next(sha, s, a, s')
    ensures Inv(sha, s') && Grows(s.hist, s'.hist)
  {
    if OnFlows(a) {
      FlowStepInv(sha, s, a, s');
    } else if OnGrants(a) {
      GrantStepInv(sha, s, a, s');
    } else if OnGates(a) {
      GateStepInv(sha, s, a, s');
    } else if OnConsumption(a) {
      ConsumeStepInv(sha, s, a, s');
    } else {
      RemovalQuiet(sha, s, a);
      QuietInv(sha, s, s');
    }
  }
}
