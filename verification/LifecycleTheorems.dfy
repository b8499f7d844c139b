// What the step machine guarantees in every execution.
module LifecycleTheorems {
  import opened Wrappers
  import opened OAuth
  import opened TokenStore
  import opened Lifecycle
  import opened LifecycleInvariant

  lemma {:induction false} ExecutionInv(sha: string -> string, path: seq<State>, acts: seq<Action>, i: nat)
    requires Execution(sha, path, acts) && i < |path|
    ensures Inv(sha, path[i])
  {
    if i == 0 {
    } else {
      ExecutionInv(sha, path, acts, i - 1);
      StepInv(sha, path[i - 1], acts[i - 1], path[i]);
    }
  }

  // ---------- Linear resources ----------

  // The unconsumed tokens of a family and the requests about to mint one.
  ghost function Credits(s: State, g: Id): set<Holder> {
    (set t | t in s.tokens && Live(s, t) && s.tokens[t].payload.family == g :: InStore(t))
    + (set p | p in s.procs && s.procs[p].Minting? && s.procs[p].family == g :: InFlight(p))
  }

  lemma AtMostOne<T>(xs: set<T>)
    requires forall x, y | x in xs && y in xs :: x == y
    ensures |xs| <= 1
  {
    if xs != {} {
      var x :| x in xs;
      assert xs == {x};
    }
  }

  lemma OneCredit(s: State, g: Id)
    requires Linear(s)
    ensures |Credits(s, g)| <= 1
  {
    forall x, y | x in Credits(s, g) && y in Credits(s, g)
      ensures x == y
    {
      assert Held(s, Families, x) == Some(g) == Held(s, Families, y);
    }
    AtMostOne(Credits(s, g));
  }

  lemma OneCreditPerFamily(sha: string -> string, path: seq<State>, acts: seq<Action>, i: nat, g: Id)
    requires Execution(sha, path, acts) && i < |path|
    ensures |Credits(path[i], g)| <= 1
  {
    ExecutionInv(sha, path, acts, i);
    OneCredit(path[i], g);
  }

  // A flow ends in at most one code, a code in at most one family, a refresh
  // token in at most one successor; and then nothing of it is left behind.
  lemma OneOutcome(sha: string -> string, path: seq<State>, acts: seq<Action>, i: nat, k: Kind, r: Id, x: Id, h: Holder)
    requires Execution(sha, path, acts) && i < |path|
    requires Held(path[i], k, Became(x)) == Some(r) && Held(path[i], k, h) == Some(r)
    ensures h == Became(x)
  {
    ExecutionInv(sha, path, acts, i);
  }

  // ---------- Codes answer to authorizations ----------

  // Flows are authorized by one step only, and tokens minted by one step only.
  ghost predicate KeepsRecords(s: State, a: Action, s': State) {
    && (!a.Authorize? ==> s'.hist.authorized == s.hist.authorized)
    && (!a.SaveToken? ==> s'.hist.minted == s.hist.minted)
  }

  lemma FlowsKeepRecords(s: State, a: Action)
    ensures var s' := FlowStep(s, a); s'.Some? ==> KeepsRecords(s, a, s'.value)
  {
  }

  lemma GrantsKeepRecords(sha: string -> string, s: State, a: Action)
    ensures var s' := GrantStep(sha, s, a); s'.Some? ==> KeepsRecords(s, a, s'.value)
  {
  }

  lemma GatesKeepRecords(sha: string -> string, s: State, a: Action)
    ensures var s' := GateStep(sha, s, a); s'.Some? ==> KeepsRecords(s, a, s'.value)
  {
  }

  lemma ConsumptionKeepsRecords(s: State, a: Action)
    ensures var s' := ConsumeStep(s, a); s'.Some? ==> KeepsRecords(s, a, s'.value)
    ensures var s' := HouseStep(s, a); s'.Some? ==> KeepsRecords(s, a, s'.value)
  {
  }

  lemma StepKeepsRecords(sha: string -> string, s: State, a: Action, s': State)
    requires Next(sha, s, a, s')
    ensures KeepsRecords(s, a, s')
  {
    FlowsKeepRecords(s, a);
    GrantsKeepRecords(sha, s, a);
    GatesKeepRecords(sha, s, a);
    ConsumptionKeepsRecords(s, a);
  }

  lemma Advance(sha: string -> string, path: seq<State>, acts: seq<Action>, i: nat)
    requires Execution(sha, path, acts) && i < |acts|
    ensures Next(sha, path[i], acts[i], path[i + 1]) && Grows(path[i].hist, path[i + 1].hist)
  {
    ExecutionInv(sha, path, acts, i);
    assert Next(sha, path[i], acts[i], path[i + 1]);
    StepInv(sha, path[i], acts[i], path[i + 1]);
  }

  lemma GrowsOn(a: History, b: History, c: History)
    requires Grows(a, b) && Grows(b, c)
    ensures Grows(a, c)
  {
  }

  lemma {:induction false} HistoryGrows(sha: string -> string, path: seq<State>, acts: seq<Action>, i: nat, j: nat)
    requires Execution(sha, path, acts) && i <= j < |path|
    ensures Grows(path[i].hist, path[j].hist)
    decreases j
  {
    if i < j {
      HistoryGrows(sha, path, acts, i, j - 1);
      assert Grows(path[j - 1].hist, path[j].hist) by {
        Advance(sha, path, acts, j - 1);
      }
      GrowsOn(path[i].hist, path[j - 1].hist, path[j].hist);
    }
  }

  // The step that authorized a flow, and the only one.
  lemma {:induction false} AuthorizedOnce(sha: string -> string, path: seq<State>, acts: seq<Action>, i: nat, f: Id)
    returns (j: nat)
    requires Execution(sha, path, acts) && i < |path| && f in path[i].hist.authorized
    ensures j < i && acts[j].Authorize? && acts[j].flowId == f
    ensures path[i].hist.authorized[f].cfg == acts[j].cfg && path[i].hist.authorized[f].request == acts[j].authorize
    ensures forall j' | 0 <= j' < |acts| && acts[j'].Authorize? && acts[j'].flowId == f :: j' == j
  {
    StepKeepsRecords(sha, path[i - 1], acts[i - 1], path[i]);
    if f in path[i - 1].hist.authorized {
      j := AuthorizedOnce(sha, path, acts, i - 1, f);
    } else {
      j := i - 1;
      forall j' | 0 <= j' < |acts| && acts[j'].Authorize? && acts[j'].flowId == f
        ensures j' == j
      {
        assert Next(sha, path[j'], acts[j'], path[j' + 1]);
        if j' < j {
          HistoryGrows(sha, path, acts, j' + 1, j);
        } else if j < j' {
          HistoryGrows(sha, path, acts, j + 1, j');
        }
      }
    }
  }

  // What a grant and an authorization have to agree on.
  ghost predicate Matches(sha: string -> string, grant: Grant, cfg: TenantConfig, req: AuthorizeRequest)
    requires grant.Exchanged?
  {
    var client := FindClient(cfg.clients, req.clientId);
    && grant.request.clientId == req.clientId
    && grant.request.redirectUri == req.redirectUri
    && grant.scopes == req.scopes
    && client.Some?
    && req.redirectUri in client.value.redirectUris
    && Subset(req.scopes, client.value.scopes)
    && (client.value.kind.Public? ==> Truthy(req.challenge))
    && (Truthy(req.challenge) ==>
          grant.request.verifier.Some? && ValidPkce(sha, grant.request.verifier.value, req.challenge.value))
  }

  // What a code keeps of the request that led to it.
  ghost predicate Carries(payload: CodePayload, req: AuthorizeRequest) {
    && payload.clientId == req.clientId
    && payload.redirectUri == req.redirectUri
    && payload.scopes == req.scopes
    && payload.challenge == if Truthy(req.challenge) then req.challenge else None
  }

  lemma CodeCarriesRequest(hist: History, i: Issued)
    requires FaithfulIssue(hist, i) && i.origin.FromFlow?
    requires FaithfulAuthorization(i.origin.flowId, hist.authorized[i.origin.flowId])
    ensures Carries(i.payload, hist.authorized[i.origin.flowId].request)
  {
  }

  lemma GrantMatches(sha: string -> string, s: State, g: Id)
    requires Inv(sha, s)
    requires g in s.hist.grants && s.hist.grants[g].Exchanged?
    requires s.hist.grants[g].code in s.hist.issued && s.hist.issued[s.hist.grants[g].code].origin.FromFlow?
    ensures var f := s.hist.issued[s.hist.grants[g].code].origin.flowId;
            f in s.hist.authorized
            && Matches(sha, s.hist.grants[g], s.hist.authorized[f].cfg, s.hist.authorized[f].request)
  {
    var grant := s.hist.grants[g];
    var i := s.hist.issued[grant.code];
    var a := s.hist.authorized[i.origin.flowId];
    assert FaithfulIssue(s.hist, i) && FaithfulAuthorization(i.origin.flowId, a);
    CodeCarriesRequest(s.hist, i);
    MatchesWhatItCarries(sha, s.hist, grant, a);
  }

  lemma MatchesWhatItCarries(sha: string -> string, hist: History, grant: Grant, a: Authorization)
    requires grant.Exchanged? && FaithfulGrant(sha, hist, grant)
    requires Carries(hist.issued[grant.code].payload, a.request) && ValidateAuthorize(a.cfg, a.request).Ok?
    ensures Matches(sha, grant, a.cfg, a.request)
  {
  }

  lemma OneFamilyPerFlow(s: State, g: Id, g': Id)
    requires Linear(s)
    requires forall x | x in {g, g'} ::
               x in s.hist.grants && s.hist.grants[x].Exchanged? && s.hist.grants[x].code in s.hist.issued
               && s.hist.issued[s.hist.grants[x].code].origin.FromFlow?
    requires s.hist.issued[s.hist.grants[g].code].origin == s.hist.issued[s.hist.grants[g'].code].origin
    ensures g == g'
  {
    var c, c' := s.hist.grants[g].code, s.hist.grants[g'].code;
    assert Held(s, Flows, Became(c)) == Held(s, Flows, Became(c'));
    assert Held(s, Codes, Became(g)) == Held(s, Codes, Became(g'));
  }

  // Every family opened by an exchange of a code that came from a flow answers to
  // exactly one earlier /authorize, and no two families answer to the same one.
  lemma ExchangeMatchesOneAuthorize(sha: string -> string, path: seq<State>, acts: seq<Action>, i: nat, g: Id)
    returns (j: nat)
    requires Execution(sha, path, acts) && i < |path|
    requires g in path[i].hist.grants && path[i].hist.grants[g].Exchanged?
    requires var c := path[i].hist.grants[g].code;
             c in path[i].hist.issued && path[i].hist.issued[c].origin.FromFlow?
    ensures j < i && acts[j].Authorize? && Matches(sha, path[i].hist.grants[g], acts[j].cfg, acts[j].authorize)
    ensures forall j' | 0 <= j' < |acts| && acts[j'].Authorize? && acts[j'].flowId == acts[j].flowId :: j' == j
    ensures forall g' | g' in path[i].hist.grants && path[i].hist.grants[g'].Exchanged?
                        && path[i].hist.grants[g'].code in path[i].hist.issued
                        && path[i].hist.issued[path[i].hist.grants[g'].code].origin == FromFlow(acts[j].flowId)
              :: g' == g
  {
    var s := path[i];
    var c := s.hist.grants[g].code;
    var f := s.hist.issued[c].origin.flowId;
    assert Linear(s) by {
      ExecutionInv(sha, path, acts, i);
    }
    assert f in s.hist.authorized
           && Matches(sha, s.hist.grants[g], s.hist.authorized[f].cfg, s.hist.authorized[f].request) by {
      ExecutionInv(sha, path, acts, i);
      GrantMatches(sha, s, g);
    }
    j := AuthorizedOnce(sha, path, acts, i, f);
    forall g' | g' in s.hist.grants && s.hist.grants[g'].Exchanged? && s.hist.grants[g'].code in s.hist.issued
                && s.hist.issued[s.hist.grants[g'].code].origin == FromFlow(f)
      ensures g' == g
    {
      OneFamilyPerFlow(s, g, g');
    }
  }

  // ---------- Families ----------

  // Every token of a family carries the grant's line, and no more than its scopes.
  ghost predicate OneLine(hist: History) {
    forall t | t in hist.minted ::
      var p := hist.minted[t].payload;
      p.family in hist.grants && p.line == hist.grants[p.family].line && Subset(p.scopes, hist.grants[p.family].scopes)
  }

  // Every rotated token stays in its parent's family and asks for no more than its parent had.
  ghost predicate Narrows(hist: History) {
    forall t | t in hist.minted && hist.minted[t].parent.Some? ::
      var p := hist.minted[t].parent.value;
      && p in hist.minted
      && hist.minted[p].payload.family == hist.minted[t].payload.family
      && Subset(hist.minted[t].payload.scopes, hist.minted[p].payload.scopes)
  }

  lemma NarrowsNow(sha: string -> string, s: State)
    requires Inv(sha, s)
    ensures Narrows(s.hist)
    ensures forall t | t in s.tokens :: t in s.hist.minted && s.tokens[t].payload == s.hist.minted[t].payload
  {
    forall t | t in s.hist.minted
      ensures FaithfulMint(s.hist, s.hist.minted[t])
    {
    }
  }

  lemma MintKeepsLine(sha: string -> string, s: State, a: Action, s': State)
    requires Inv(sha, s) && Next(sha, s, a, s') && a.SaveToken? && OneLine(s.hist)
    ensures OneLine(s'.hist)
  {
    assert FaithfulHandler(s.hist, s.procs[a.pid]);
  }

  // The rows of a family agree, over every run, on tenant, client, claim, method,
  // audience, auth time, DPoP key and claims request; scopes only ever shrink.
  lemma {:induction false} FamiliesKeepTheirLine(sha: string -> string, path: seq<State>, acts: seq<Action>, i: nat)
    requires Execution(sha, path, acts) && i < |path|
    ensures OneLine(path[i].hist) && Narrows(path[i].hist)
    ensures forall t | t in path[i].tokens ::
              t in path[i].hist.minted && path[i].tokens[t].payload == path[i].hist.minted[t].payload
  {
    ExecutionInv(sha, path, acts, i);
    NarrowsNow(sha, path[i]);
    if i > 0 {
      FamiliesKeepTheirLine(sha, path, acts, i - 1);
      LineStep(sha, path, acts, i - 1);
    }
  }

  lemma LineStep(sha: string -> string, path: seq<State>, acts: seq<Action>, i: nat)
    requires Execution(sha, path, acts) && i < |acts| && OneLine(path[i].hist)
    ensures OneLine(path[i + 1].hist)
  {
    Advance(sha, path, acts, i);
    if acts[i].SaveToken? {
      ExecutionInv(sha, path, acts, i);
      MintKeepsLine(sha, path[i], acts[i], path[i + 1]);
    } else {
      StepKeepsRecords(sha, path[i], acts[i], path[i + 1]);
    }
  }

  // ---------- Reuse detection ----------

  ghost predicate Empty(s: State, g: Id) {
    forall t | t in s.tokens :: s.tokens[t].payload.family != g
  }

  ghost predicate MintInFlight(s: State, g: Id) {
    exists p :: p in s.procs && s.procs[p].Minting? && s.procs[p].family == g
  }

  // No rows, no request about to write one, and no request may open the family again.
  ghost predicate Dead(s: State, g: Id) {
    g in s.hist.grants && Empty(s, g) && !MintInFlight(s, g)
  }

  // A row is there because it was before, consumed if it was, or because a mint
  // was just saved. A mint is under way because it was before, or a family opened,
  // or a row that could be claimed was.
  ghost predicate Justified(s: State, a: Action, s': State) {
    && s.now <= s'.now
    && (forall t | t in s'.tokens ::
          || (t in s.tokens && s'.tokens[t].payload == s.tokens[t].payload
              && (s'.tokens[t].consumedAt.None? ==> s.tokens[t].consumedAt.None?))
          || (a.SaveToken? && a.pid in s.procs && s.procs[a.pid].Minting?
              && s'.tokens[t].payload.family == s.procs[a.pid].family))
    && (forall p | p in s'.procs && s'.procs[p].Minting? && !(p in s.procs && s'.procs[p] == s.procs[p]) ::
          s'.procs[p].family !in s.hist.grants || ClaimableRow(s, s'.procs[p].family))
  }

  ghost predicate ClaimableRow(s: State, g: Id) {
    exists t :: t in s.tokens && s.tokens[t].payload.family == g && Claimable(s.tokens, t, s.now)
  }

  lemma TakesJustified(s: State, a: Action)
    requires a.TakeFlow? || a.Callback? || a.ReadRoute?
    ensures var s' := FlowStep(s, a); s'.Some? ==> Justified(s, a, s'.value)
  {
  }

  lemma FlowsJustified(s: State, a: Action)
    ensures var s' := FlowStep(s, a); s'.Some? ==> Justified(s, a, s'.value)
  {
    if a.TakeFlow? || a.Callback? || a.ReadRoute? {
      TakesJustified(s, a);
    }
  }

  lemma GrantsJustified(sha: string -> string, s: State, a: Action)
    ensures var s' := GrantStep(sha, s, a); s'.Some? ==> Justified(s, a, s'.value)
  {
  }

  lemma GatesJustified(sha: string -> string, s: State, a: Action)
    ensures var s' := GateStep(sha, s, a); s'.Some? ==> Justified(s, a, s'.value)
  {
  }

  lemma SpendJustified(s: State, a: Action, pid: Id, t: Id, h: Option<Handler>)
    requires Claimable(s.tokens, t, s.now)
    requires h.Some? ==> h.value.Minting? && h.value.family == s.tokens[t].payload.family
    ensures Justified(s, a, Spend(s, pid, t, Consumed(s.tokens, t, s.now), h))
  {
  }

  lemma MissesJustified(s: State, a: Action)
    requires (a.ConsumeAtomically? || a.Claim?) && a.pid in s.procs && s.procs[a.pid].Consuming?
    requires !Claimable(s.tokens, s.procs[a.pid].token, s.now)
    ensures var s' := ConsumeStep(s, a); s'.Some? && Justified(s, a, s'.value)
  {
  }

  lemma ConsumptionJustified(s: State, a: Action)
    ensures var s' := ConsumeStep(s, a); s'.Some? ==> Justified(s, a, s'.value)
  {
    if (a.ConsumeAtomically? || a.Claim?) && a.pid in s.procs && s.procs[a.pid].Consuming? {
      var c := s.procs[a.pid];
      if Claimable(s.tokens, c.token, s.now) {
        SpendJustified(s, a, a.pid, c.token, Successor(c.token, c.purpose, s.tokens[c.token].payload));
      } else {
        MissesJustified(s, a);
      }
    }
  }

  lemma HouseJustified(s: State, a: Action)
    ensures var s' := HouseStep(s, a); s'.Some? ==> Justified(s, a, s'.value)
  {
  }

  // The two ways a replay takes its family down: the memory store's single step
  // and the last statement of the SQL stores.
  ghost predicate Revokes(s: State, a: Action, g: Id) {
    || (a.Sweep? && a.pid in s.procs && s.procs[a.pid].Sweeping? && s.procs[a.pid].family == g)
    || (a.ConsumeAtomically? && a.pid in s.procs && s.procs[a.pid].Consuming?
        && var c := s.procs[a.pid];
           c.token in s.tokens && s.tokens[c.token].consumedAt.Some?
           && s.now - s.tokens[c.token].consumedAt.value <= c.window
           && s.tokens[c.token].payload.family == g)
  }

  lemma StepJustified(sha: string -> string, s: State, a: Action, s': State)
    requires Next(sha, s, a, s')
    ensures Justified(s, a, s')
  {
    FlowsJustified(s, a);
    GrantsJustified(sha, s, a);
    GatesJustified(sha, s, a);
    ConsumptionJustified(s, a);
    HouseJustified(s, a);
  }

  lemma DeadStep(s: State, a: Action, s': State, g: Id)
    requires Dead(s, g) && Justified(s, a, s') && Grows(s.hist, s'.hist)
    ensures Dead(s', g)
  {
  }

  lemma DeadAdvances(sha: string -> string, path: seq<State>, acts: seq<Action>, i: nat, g: Id)
    requires Execution(sha, path, acts) && i < |acts| && Dead(path[i], g)
    ensures Dead(path[i + 1], g)
  {
    var s, a, s' := path[i], acts[i], path[i + 1];
    assert Justified(s, a, s') && Grows(s.hist, s'.hist) by {
      Advance(sha, path, acts, i);
      StepJustified(sha, s, a, s');
    }
    DeadStep(s, a, s', g);
  }

  lemma {:induction false} DeadStays(sha: string -> string, path: seq<State>, acts: seq<Action>, i: nat, j: nat, g: Id)
    requires Execution(sha, path, acts) && i <= j < |path| && Dead(path[i], g)
    ensures Dead(path[j], g)
    decreases j
  {
    if i < j {
      DeadStays(sha, path, acts, i, j - 1, g);
      DeadAdvances(sha, path, acts, j - 1, g);
    }
  }

  // The revoking step itself removes every row and starts no mint.
  lemma RevocationEmpties(s: State, a: Action, s': State, g: Id)
    requires Revokes(s, a, g) && ConsumeStep(s, a) == Some(s')
    ensures Empty(s', g)
    ensures MintInFlight(s', g) <==> MintInFlight(s, g)
    ensures s'.hist == s.hist
  {
    assert forall p | p in s.procs && s.procs[p].Minting? :: p in s'.procs && s'.procs[p] == s.procs[p];
  }

  ghost predicate NeverAgain(path: seq<State>, i: nat, g: Id) {
    forall j | i <= j < |path| :: Empty(path[j], g)
  }

  // An execution that goes on from the state after `i` steps of this one.
  ghost predicate Continues(sha: string -> string, path: seq<State>, acts: seq<Action>, i: nat,
                            path': seq<State>, acts': seq<Action>)
    requires i < |path|
  {
    Execution(sha, path', acts') && i < |path'| && path'[..i + 1] == path[..i + 1]
  }

  ghost predicate EmptyForGood(sha: string -> string, path: seq<State>, acts: seq<Action>, i: nat, g: Id)
    requires i < |path|
  {
    forall path', acts' | Continues(sha, path, acts, i, path', acts') :: NeverAgain(path', i, g)
  }

  // There is always an identifier that was not drawn yet.
  lemma {:induction false} SomeFresh(ids: set<Id>) returns (unused: Id)
    ensures forall x | x in ids :: x < unused
  {
    if ids == {} {
      unused := 0;
    } else {
      var x :| x in ids;
      var below := SomeFresh(ids - {x});
      unused := if x < below then below else x + 1;
      assert forall y | y in ids :: y == x || y in ids - {x};
    }
  }

  lemma Cut(sha: string -> string, path: seq<State>, acts: seq<Action>, n: nat)
    requires Execution(sha, path, acts) && n <= |acts|
    ensures Execution(sha, path[..n + 1], acts[..n])
  {
    forall k | 0 <= k < n
      ensures Next(sha, path[..n + 1][k], acts[..n][k], path[..n + 1][k + 1])
    {
      assert Next(sha, path[k], acts[k], path[k + 1]);
    }
  }

  lemma Appended(sha: string -> string, path: seq<State>, acts: seq<Action>, a: Action, s': State)
    requires Execution(sha, path, acts) && Next(sha, path[|acts|], a, s')
    ensures Execution(sha, path + [s'], acts + [a])
  {
    forall k | 0 <= k < |acts + [a]|
      ensures Next(sha, (path + [s'])[k], (acts + [a])[k], (path + [s'])[k + 1])
    {
      if k < |acts| { assert Next(sha, path[k], acts[k], path[k + 1]); }
    }
  }

  // One more step from the state after `i` steps.
  lemma Extended(sha: string -> string, path: seq<State>, acts: seq<Action>, i: nat, a: Action, s': State)
    requires Execution(sha, path, acts) && i < |path| && Next(sha, path[i], a, s')
    ensures Continues(sha, path, acts, i, path[..i + 1] + [s'], acts[..i] + [a])
  {
    Cut(sha, path, acts, i);
    Appended(sha, path[..i + 1], acts[..i], a, s');
  }

  lemma MintCanLand(sha: string -> string, path: seq<State>, acts: seq<Action>, i: nat, g: Id)
    returns (path': seq<State>, acts': seq<Action>)
    requires Execution(sha, path, acts) && i < |path| && MintInFlight(path[i], g)
    ensures Continues(sha, path, acts, i, path', acts') && !NeverAgain(path', i, g)
  {
    var s := path[i];
    var p :| p in s.procs && s.procs[p].Minting? && s.procs[p].family == g;
    var t := SomeFresh(s.hist.minted.Keys);
    var a := SaveToken(p, t, "", 0, 0);
    var s' := DoSaveToken(s, p, t, "", 0, 0).value;
    assert Next(sha, s, a, s');
    Extended(sha, path, acts, i, a, s');
    path', acts' := path[..i + 1] + [s'], acts[..i] + [a];
    assert t in path'[i + 1].tokens && !Empty(path'[i + 1], g);
  }

  lemma DeadNever(sha: string -> string, path: seq<State>, acts: seq<Action>, n: nat, g: Id)
    requires Execution(sha, path, acts) && n < |path| && Dead(path[n], g)
    ensures NeverAgain(path, n, g)
  {
    forall j | n <= j < |path|
      ensures Empty(path[j], g)
    {
      DeadStays(sha, path, acts, n, j, g);
    }
  }

  lemma DeadForGood(sha: string -> string, path: seq<State>, acts: seq<Action>, n: nat, g: Id)
    requires Execution(sha, path, acts) && n < |path| && Dead(path[n], g)
    ensures EmptyForGood(sha, path, acts, n, g)
  {
    forall path', acts' | Continues(sha, path, acts, n, path', acts')
      ensures NeverAgain(path', n, g)
    {
      assert path'[n] == path'[..n + 1][n] == path[n];
      DeadNever(sha, path', acts', n, g);
    }
  }

  // A family that a replay takes down was opened at some time.
  lemma RevokedWasOpened(sha: string -> string, s: State, a: Action, g: Id)
    requires Inv(sha, s) && Revokes(s, a, g)
    ensures g in s.hist.grants
  {
    if a.Sweep? {
      assert FaithfulHandler(s.hist, s.procs[a.pid]);
    } else {
      RowsHaveFamilies(sha, s, s.procs[a.pid].token);
    }
  }

  // After a replay has taken a family down, the family stays empty in every
  // continuation exactly when no mint of it was in flight at that step.
  lemma ReuseRevocation(sha: string -> string, path: seq<State>, acts: seq<Action>, i: nat, g: Id)
    requires Execution(sha, path, acts) && i < |acts| && Revokes(path[i], acts[i], g)
    ensures !MintInFlight(path[i], g) <==> EmptyForGood(sha, path, acts, i + 1, g)
  {
    assert Next(sha, path[i], acts[i], path[i + 1]);
    RevocationEmpties(path[i], acts[i], path[i + 1], g);
    ExecutionInv(sha, path, acts, i);
    RevokedWasOpened(sha, path[i], acts[i], g);
    if MintInFlight(path[i], g) {
      var path', acts' := MintCanLand(sha, path, acts, i + 1, g);
    } else {
      DeadForGood(sha, path, acts, i + 1, g);
    }
  }

  // ---------- Single use of refresh tokens ----------

  // Step `i` is a consume of `t` that succeeds, atomic or by claim.
  ghost predicate Consumes(path: seq<State>, acts: seq<Action>, i: nat, t: Id)
    requires i < |acts| < |path|
  {
    && (acts[i].Claim? || acts[i].ConsumeAtomically?)
    && acts[i].pid in path[i].procs
    && path[i].procs[acts[i].pid].Consuming?
    && path[i].procs[acts[i].pid].token == t
    && Claimable(path[i].tokens, t, path[i].now)
  }

  lemma ConsumeMarks(s: State, a: Action, s': State)
    requires (a.Claim? || a.ConsumeAtomically?) && a.pid in s.procs && s.procs[a.pid].Consuming?
    requires Claimable(s.tokens, s.procs[a.pid].token, s.now) && ConsumeStep(s, a) == Some(s')
    ensures s.procs[a.pid].token in s'.hist.spent
  {
  }

  // However many requests present a token, in whatever order, one of them at most succeeds.
  lemma TokenConsumedOnce(sha: string -> string, path: seq<State>, acts: seq<Action>, i: nat, j: nat, t: Id)
    requires Execution(sha, path, acts) && i < |acts| && j < |acts|
    requires Consumes(path, acts, i, t) && Consumes(path, acts, j, t)
    ensures i == j
  {
    var a, b := if i < j then i else j, if i < j then j else i;
    if a < b {
      assert Next(sha, path[a], acts[a], path[a + 1]);
      ConsumeMarks(path[a], acts[a], path[a + 1]);
      HistoryGrows(sha, path, acts, a + 1, b);
      ExecutionInv(sha, path, acts, b);
      assert t in path[b].hist.spent && Live(path[b], t);
      assert false;
    }
  }

  lemma RotationsPresentIssuedTokens(sha: string -> string, path: seq<State>, acts: seq<Action>, i: nat, p: Id)
    requires Execution(sha, path, acts) && i < |path|
    requires p in path[i].procs && path[i].procs[p].Consuming? && path[i].procs[p].purpose.Rotate?
    ensures path[i].procs[p].token in path[i].hist.minted
  {
    ExecutionInv(sha, path, acts, i);
    assert FaithfulHandler(path[i].hist, path[i].procs[p]);
  }

  // ---------- Why a claim missed ----------

  // From the state after `i` steps on, whenever the request is still about to look
  // up why its claim missed, the lookup finds one of the four reasons.
  ghost predicate AlwaysExplained(sha: string -> string, path: seq<State>, acts: seq<Action>, i: nat, pid: Id)
    requires i < |path| && pid in path[i].procs && path[i].procs[pid].LookingUp?
  {
    forall path', acts' | Continues(sha, path, acts, i, path', acts') :: ExplainedOn(path', i, pid, path[i].procs[pid])
  }

  ghost predicate ExplainedOn(path: seq<State>, i: nat, pid: Id, h: Handler)
    requires h.LookingUp?
  {
    forall j | i <= j < |path| && pid in path[j].procs && path[j].procs[pid] == h ::
      !Explain(path[j].tokens, h.token, h.window, h.at).Unexplained?
  }

  // A token issued before the claim is never saved again, so it keeps its reason.
  lemma IssuedStaysExplained(sha: string -> string, path: seq<State>, acts: seq<Action>, i: nat, pid: Id)
    requires Execution(sha, path, acts) && i < |path|
    requires pid in path[i].procs && path[i].procs[pid].LookingUp? && path[i].procs[pid].issued
    ensures AlwaysExplained(sha, path, acts, i, pid)
  {
    var h := path[i].procs[pid];
    forall path': seq<State>, acts' | Continues(sha, path, acts, i, path', acts')
      ensures ExplainedOn(path', i, pid, h)
    {
      forall j | i <= j < |path'| && pid in path'[j].procs && path'[j].procs[pid] == h
        ensures !Explain(path'[j].tokens, h.token, h.window, h.at).Unexplained?
      {
        ExecutionInv(sha, path', acts', j);
        assert Explains(path'[j].hist, path'[j].tokens, h);
      }
    }
  }

  // A token that was guessed can still be issued, live at the claim's reading of the clock.
  lemma GuessCanBeIssued(sha: string -> string, s: State, pid: Id, t: Id, at: int)
    returns (a: Action, s1: State, b: Action, s2: State)
    requires pid in s.procs && t !in s.hist.minted
    ensures Next(sha, s, a, s1) && Next(sha, s1, b, s2)
    ensures pid in s2.procs && s2.procs[pid] == s.procs[pid]
    ensures Claimable(s2.tokens, t, at)
  {
    var p := SomeFresh(s.procs.Keys);
    var g := SomeFresh(s.hist.grants.Keys);
    var line := Line("", "", "", "", "", None, 0, None, None);
    a, b := GrantForeign(p, g, line, []), SaveToken(p, t, "", at, 1);
    s1 := DoGrantForeign(s, p, g, line, []).value;
    s2 := DoSaveToken(s1, p, t, "", at, 1).value;
  }

  lemma ExtendedTwice(sha: string -> string, path: seq<State>, acts: seq<Action>, i: nat,
                      a: Action, s1: State, b: Action, s2: State)
    returns (path': seq<State>, acts': seq<Action>)
    requires Execution(sha, path, acts) && i < |path| && Next(sha, path[i], a, s1) && Next(sha, s1, b, s2)
    ensures Continues(sha, path, acts, i, path', acts') && |path'| == i + 3 && path'[i + 2] == s2
  {
    Extended(sha, path, acts, i, a, s1);
    var path1, acts1 := path[..i + 1] + [s1], acts[..i] + [a];
    Extended(sha, path1, acts1, i + 1, b, s2);
    path', acts' := path1[..i + 2] + [s2], acts1[..i + 1] + [b];
    assert path1[..i + 2][..i + 1] == path1[..i + 1] == path[..i + 1];
  }

  lemma GuessGoesUnexplained(sha: string -> string, path: seq<State>, acts: seq<Action>, i: nat, pid: Id)
    requires Execution(sha, path, acts) && i < |path|
    requires pid in path[i].procs && path[i].procs[pid].LookingUp? && path[i].procs[pid].token !in path[i].hist.minted
    ensures !AlwaysExplained(sha, path, acts, i, pid)
  {
    var h := path[i].procs[pid];
    var a, s1, b, s2 := GuessCanBeIssued(sha, path[i], pid, h.token, h.at);
    var path', acts' := ExtendedTwice(sha, path, acts, i, a, s1, b, s2);
    assert !ExplainedOn(path', i, pid, h) by {
      assert Explain(s2.tokens, h.token, h.window, h.at).Unexplained?;
    }
  }

  // The branch commented as unreachable: a claim that misses is sure to be
  // explained, however the run goes on, exactly when its token had been issued.
  lemma MissIsExplainedIff(sha: string -> string, path: seq<State>, acts: seq<Action>, i: nat)
    requires Execution(sha, path, acts) && i < |acts| && acts[i].Claim?
    requires acts[i].pid in path[i].procs && path[i].procs[acts[i].pid].Consuming?
    requires !Claimable(path[i].tokens, path[i].procs[acts[i].pid].token, path[i].now)
    ensures var pid := acts[i].pid;
            && pid in path[i + 1].procs && path[i + 1].procs[pid].LookingUp?
            && (path[i].procs[pid].token in path[i].hist.minted <==> AlwaysExplained(sha, path, acts, i + 1, pid))
  {
    var pid := acts[i].pid;
    assert Next(sha, path[i], acts[i], path[i + 1]);
    if path[i].procs[pid].token in path[i].hist.minted {
      IssuedStaysExplained(sha, path, acts, i + 1, pid);
    } else {
      GuessGoesUnexplained(sha, path, acts, i + 1, pid);
    }
  }
}
