// Revoking a family row by row, as DynamoDB does: a query, then one delete for
// each row it found, with every other request running in between.
module LifecycleDeletes {
  import opened Wrappers
  import opened OAuth
  import opened TokenStore
  import opened Lifecycle
  import opened LifecycleInvariant
  import opened LifecycleTheorems

  // The request that queried at step `i` deleted its last row at step `k`, or
  // found none in the first place.
  ghost predicate Completes(path: seq<State>, acts: seq<Action>, i: nat, pid: Id, k: nat)
    requires |path| == |acts| + 1
  {
    && i <= k < |acts|
    && acts[k] != Abort(pid)
    && pid !in path[k + 1].procs
    && Busy(path, i, pid, k)
  }

  ghost predicate Busy(path: seq<State>, i: nat, pid: Id, k: nat)
    requires k < |path|
  {
    forall j | i < j <= k :: pid in path[j].procs
  }

  // Whenever the deletes come to their end, the family stays empty from there on.
  ghost predicate EmptiedForGood(sha: string -> string, path: seq<State>, acts: seq<Action>, i: nat, pid: Id, g: Id)
    requires i + 1 < |path|
  {
    forall path', acts', k: nat | Continues(sha, path, acts, i + 1, path', acts') && Completes(path', acts', i, pid, k) ::
      NeverAgain(path', k + 1, g)
  }

  // ---------- Quiet queries ----------

  // No mint is in flight, none can start, and every row is one that is to be deleted.
  ghost predicate Closing(s: State, g: Id, pid: Id) {
    && g in s.hist.grants
    && !MintInFlight(s, g)
    && !ClaimableRow(s, g)
    && pid in s.procs && s.procs[pid].Deleting? && s.procs[pid].family == g
    && forall t | t in s.tokens && s.tokens[t].payload.family == g :: t in s.procs[pid].items
  }

  // Only deletes and an abort move a request that is deleting.
  ghost predicate Moves(s: State, a: Action, s': State, pid: Id)
    requires pid in s.procs && s.procs[pid].Deleting?
  {
    var h := s.procs[pid];
    || (pid in s'.procs && s'.procs[pid] == h)
    || (a == Abort(pid) && pid !in s'.procs)
    || (a.DeleteItem? && a.pid == pid && a.token in h.items && s'.tokens == s.tokens - {a.token}
        && if h.items == {a.token} then pid !in s'.procs
           else pid in s'.procs && s'.procs[pid] == Deleting(h.family, h.items - {a.token}))
  }

  lemma FlowsMove(s: State, a: Action, pid: Id)
    requires pid in s.procs && s.procs[pid].Deleting?
    ensures var s' := FlowStep(s, a); s'.Some? ==> Moves(s, a, s'.value, pid)
  {
  }

  lemma GrantsMove(sha: string -> string, s: State, a: Action, pid: Id)
    requires pid in s.procs && s.procs[pid].Deleting?
    ensures var s' := GrantStep(sha, s, a); s'.Some? ==> Moves(s, a, s'.value, pid)
  {
  }

  lemma GatesMove(sha: string -> string, s: State, a: Action, pid: Id)
    requires pid in s.procs && s.procs[pid].Deleting?
    ensures var s' := GateStep(sha, s, a); s'.Some? ==> Moves(s, a, s'.value, pid)
  {
  }

  lemma ConsumptionMoves(s: State, a: Action, pid: Id)
    requires pid in s.procs && s.procs[pid].Deleting?
    ensures var s' := ConsumeStep(s, a); s'.Some? ==> Moves(s, a, s'.value, pid)
    ensures var s' := HouseStep(s, a); s'.Some? ==> Moves(s, a, s'.value, pid)
  {
    if a.DeleteItem? && a.pid == pid && a.token in s.procs[pid].items {
      assert s.procs[pid].items - {a.token} == {} <==> s.procs[pid].items == {a.token};
    }
  }

  lemma StepMoves(sha: string -> string, s: State, a: Action, s': State, pid: Id)
    requires Next(sha, s, a, s') && pid in s.procs && s.procs[pid].Deleting?
    ensures Moves(s, a, s', pid)
  {
    FlowsMove(s, a, pid);
    GrantsMove(sha, s, a, pid);
    GatesMove(sha, s, a, pid);
    ConsumptionMoves(s, a, pid);
  }

  lemma ClosingStep(s: State, a: Action, s': State, g: Id, pid: Id)
    requires Closing(s, g, pid) && Justified(s, a, s') && Grows(s.hist, s'.hist) && Moves(s, a, s', pid)
    requires a == Abort(pid) ==> pid in s'.procs
    ensures if pid in s'.procs then Closing(s', g, pid) else Dead(s', g)
  {
    assert !MintInFlight(s', g);
    forall t | t in s'.tokens && s'.tokens[t].payload.family == g
      ensures t in s.tokens && s.tokens[t].payload.family == g && !Claimable(s'.tokens, t, s'.now)
    {
      assert t in s.tokens && s.tokens[t].payload == s'.tokens[t].payload;
      assert !Claimable(s.tokens, t, s.now);
    }
  }

  lemma {:induction false} ClosingAlong(sha: string -> string, path: seq<State>, acts: seq<Action>,
                                        i: nat, k: nat, g: Id, pid: Id)
    requires Execution(sha, path, acts) && i <= k < |path| && Closing(path[i], g, pid)
    requires forall j | i < j <= k :: pid in path[j].procs
    ensures Closing(path[k], g, pid)
    decreases k
  {
    if i < k {
      ClosingAlong(sha, path, acts, i, k - 1, g, pid);
      ClosingAdvances(sha, path, acts, k - 1, g, pid);
    }
  }

  lemma ClosingAdvances(sha: string -> string, path: seq<State>, acts: seq<Action>, j: nat, g: Id, pid: Id)
    requires Execution(sha, path, acts) && j < |acts| && Closing(path[j], g, pid)
    requires acts[j] == Abort(pid) ==> pid in path[j + 1].procs
    ensures if pid in path[j + 1].procs then Closing(path[j + 1], g, pid) else Dead(path[j + 1], g)
  {
    var s, a, s' := path[j], acts[j], path[j + 1];
    assert Next(sha, s, a, s') && Grows(s.hist, s'.hist) by {
      Advance(sha, path, acts, j);
    }
    StepJustified(sha, s, a, s');
    StepMoves(sha, s, a, s', pid);
    ClosingStep(s, a, s', g, pid);
  }

  // What the query leaves behind.
  lemma QueryCloses(s: State, pid: Id, g: Id)
    requires pid in s.procs && s.procs[pid] == Sweeping(g) && g in s.hist.grants
    requires !MintInFlight(s, g) && !ClaimableRow(s, g)
    ensures var s' := DoQueryFamily(s, pid).value; if pid in s'.procs then Closing(s', g, pid) else Dead(s', g)
  {
    var s' := DoQueryFamily(s, pid).value;
    assert s'.tokens == s.tokens && s'.now == s.now && s'.hist == s.hist;
    assert forall p | p in s'.procs && s'.procs[p].Minting? :: p in s.procs && s'.procs[p] == s.procs[p];
    assert !ClaimableRow(s', g);
    assert forall t | t in s.tokens && s.tokens[t].payload.family == g :: t in RowsOf(s.tokens, g);
  }

  lemma ClosedStaysEmpty(sha: string -> string, path: seq<State>, acts: seq<Action>, i: nat, pid: Id, g: Id, k: nat)
    requires Execution(sha, path, acts) && Completes(path, acts, i, pid, k)
    requires if pid in path[i + 1].procs then Closing(path[i + 1], g, pid) else Dead(path[i + 1], g)
    ensures NeverAgain(path, k + 1, g)
  {
    if pid in path[i + 1].procs {
      ClosingAlong(sha, path, acts, i + 1, k, g, pid);
      ClosingAdvances(sha, path, acts, k, g, pid);
    } else {
      DeadStays(sha, path, acts, i + 1, k + 1, g);
    }
    DeadNever(sha, path, acts, k + 1, g);
  }

  lemma QuietQueryEmpties(sha: string -> string, path: seq<State>, acts: seq<Action>, i: nat, g: Id)
    requires Execution(sha, path, acts) && i < |acts| && acts[i].QueryFamily?
    requires acts[i].pid in path[i].procs && path[i].procs[acts[i].pid] == Sweeping(g)
    requires !MintInFlight(path[i], g) && !ClaimableRow(path[i], g)
    ensures EmptiedForGood(sha, path, acts, i, acts[i].pid, g)
  {
    var s, pid := path[i], acts[i].pid;
    assert g in s.hist.grants by {
      ExecutionInv(sha, path, acts, i);
      assert FaithfulHandler(s.hist, s.procs[pid]);
    }
    assert Next(sha, s, acts[i], path[i + 1]);
    QueryCloses(s, pid, g);
    forall path', acts', k: nat | Continues(sha, path, acts, i + 1, path', acts') && Completes(path', acts', i, pid, k)
      ensures NeverAgain(path', k + 1, g)
    {
      assert path'[i + 1] == path'[..i + 2][i + 1] == path[i + 1];
      ClosedStaysEmpty(sha, path', acts', i, pid, g, k);
    }
  }

  // ---------- Queries that come too early ----------

  // `path'` is `path` and then more steps, through all of which `pid` is busy up to the last.
  ghost predicate Prolongs(sha: string -> string, path: seq<State>, acts: seq<Action>,
                           path': seq<State>, acts': seq<Action>, pid: Id)
  {
    && Execution(sha, path', acts')
    && path <= path' && acts <= acts'
    && forall j | |acts| < j < |acts'| :: pid in path'[j].procs
  }

  lemma OneMore(sha: string -> string, path: seq<State>, acts: seq<Action>, a: Action, s: State, pid: Id)
    requires Execution(sha, path, acts) && Next(sha, path[|acts|], a, s)
    ensures Prolongs(sha, path, acts, path + [s], acts + [a], pid)
  {
    Appended(sha, path, acts, a, s);
  }

  lemma ProlongsOn(sha: string -> string, path: seq<State>, acts: seq<Action>, path1: seq<State>, acts1: seq<Action>,
                   path2: seq<State>, acts2: seq<Action>, pid: Id)
    requires Prolongs(sha, path, acts, path1, acts1, pid) && Prolongs(sha, path1, acts1, path2, acts2, pid)
    requires pid in path1[|acts1|].procs
    ensures Prolongs(sha, path, acts, path2, acts2, pid)
  {
    forall j | |acts| < j < |acts2|
      ensures pid in path2[j].procs
    {
      if j < |acts1| {
        assert path2[j] == path1[j];
      } else if j == |acts1| {
        assert path2[j] == path1[j];
      }
    }
  }

  lemma OneDelete(sha: string -> string, s: State, pid: Id, x: Id, t: Id) returns (s': State)
    requires pid in s.procs && s.procs[pid].Deleting? && x in s.procs[pid].items
    requires t in s.tokens && t != x
    ensures Next(sha, s, DeleteItem(pid, x), s') && t in s'.tokens && s'.tokens[t] == s.tokens[t]
    ensures var h := s.procs[pid];
            if h.items == {x} then pid !in s'.procs
            else pid in s'.procs && s'.procs[pid] == Deleting(h.family, h.items - {x})
  {
    s' := DoDeleteItem(s, pid, x).value;
    assert s.procs[pid].items - {x} == {} <==> s.procs[pid].items == {x};
  }

  // Every delete done, one after the other; a row the query did not find stays.
  lemma {:induction false} DeletesRun(sha: string -> string, path: seq<State>, acts: seq<Action>, pid: Id, t: Id)
    returns (path': seq<State>, acts': seq<Action>)
    requires Execution(sha, path, acts)
    requires pid in path[|acts|].procs && path[|acts|].procs[pid].Deleting? && path[|acts|].procs[pid].items != {}
    requires t in path[|acts|].tokens && t !in path[|acts|].procs[pid].items
    ensures Prolongs(sha, path, acts, path', acts', pid) && |acts| < |acts'|
    ensures acts'[|acts'| - 1] != Abort(pid) && pid !in path'[|acts'|].procs
    ensures t in path'[|acts'|].tokens && path'[|acts'|].tokens[t] == path[|acts|].tokens[t]
    decreases |path[|acts|].procs[pid].items|
  {
    var s := path[|acts|];
    var h := s.procs[pid];
    var x :| x in h.items;
    var s' := OneDelete(sha, s, pid, x, t);
    OneMore(sha, path, acts, DeleteItem(pid, x), s', pid);
    path', acts' := path + [s'], acts + [DeleteItem(pid, x)];
    if h.items != {x} {
      var path1, acts1 := path', acts';
      path', acts' := DeletesRun(sha, path1, acts1, pid, t);
      ProlongsOn(sha, path, acts, path1, acts1, path', acts', pid);
    }
  }

  lemma LandsNow(sha: string -> string, path: seq<State>, acts: seq<Action>, g: Id, pid: Id)
    returns (path': seq<State>, acts': seq<Action>, t: Id)
    requires Execution(sha, path, acts) && MintInFlight(path[|acts|], g)
    ensures Prolongs(sha, path, acts, path', acts', pid) && |acts'| == |acts| + 1
    ensures t !in path[|acts|].hist.minted
    ensures t in path'[|acts'|].tokens && path'[|acts'|].tokens[t].payload.family == g
    ensures pid in path[|acts|].procs && path[|acts|].procs[pid].Deleting? ==>
              pid in path'[|acts'|].procs && path'[|acts'|].procs[pid] == path[|acts|].procs[pid]
  {
    var s := path[|acts|];
    var p :| p in s.procs && s.procs[p].Minting? && s.procs[p].family == g;
    t := SomeFresh(s.hist.minted.Keys);
    var a, s' := SaveToken(p, t, "", 0, 0), DoSaveToken(s, p, t, "", 0, 0).value;
    assert Next(sha, s, a, s');
    OneMore(sha, path, acts, a, s', pid);
    path', acts' := path + [s'], acts + [a];
  }

  // The refresh request of an honest public client with the token.
  lemma RotationStarts(sha: string -> string, s: State, t: Id, p: Id)
    returns (a: Action, s1: State, b: Action, s2: State)
    requires Claimable(s.tokens, t, s.now) && p !in s.procs
    ensures Next(sha, s, a, s1) && Next(sha, s1, b, s2)
    ensures s1 == s.(procs := s1.procs) && s2 == s.(procs := s2.procs)
    ensures forall q | q in s.procs :: q in s1.procs && q in s2.procs && s2.procs[q] == s.procs[q]
    ensures p in s2.procs && s2.procs[p] == Consuming(t, 0, Rotate(None))
  {
    var payload := s.tokens[t].payload;
    var req := RefreshRequest(t, None, None, None, payload.line.dpopJkt);
    var cfg := TenantConfig(payload.line.tenantId, [Client(payload.line.clientId, Public, [], true, [], false)]);
    assert RefreshGate(sha, cfg, payload, req).None?;
    a, b := Peek(p, req), Gate(p, cfg, 0);
    s1 := DoPeek(s, p, req).value;
    s2 := DoGate(sha, s1, p, cfg, 0).value;
  }

  lemma RotationClaims(sha: string -> string, s: State, t: Id, p: Id) returns (s': State)
    requires Claimable(s.tokens, t, s.now) && p in s.procs && s.procs[p] == Consuming(t, 0, Rotate(None))
    ensures Next(sha, s, Claim(p), s') && s'.hist.minted == s.hist.minted
    ensures forall q | q in s.procs && q != p :: q in s'.procs && s'.procs[q] == s.procs[q]
    ensures MintInFlight(s', s.tokens[t].payload.family)
  {
    s' := DoClaim(s, p).value;
    assert p in s'.procs && s'.procs[p].Minting? && s'.procs[p].family == s.tokens[t].payload.family;
  }

  // A row that can be claimed becomes a mint in flight.
  lemma RotatesNow(sha: string -> string, path: seq<State>, acts: seq<Action>, g: Id, pid: Id)
    returns (path': seq<State>, acts': seq<Action>)
    requires Execution(sha, path, acts) && ClaimableRow(path[|acts|], g) && pid in path[|acts|].procs
    ensures Prolongs(sha, path, acts, path', acts', pid)
    ensures path'[|acts'|].hist.minted == path[|acts|].hist.minted
    ensures pid in path'[|acts'|].procs && path'[|acts'|].procs[pid] == path[|acts|].procs[pid]
    ensures MintInFlight(path'[|acts'|], g)
  {
    var s := path[|acts|];
    var t :| t in s.tokens && s.tokens[t].payload.family == g && Claimable(s.tokens, t, s.now);
    var p := SomeFresh(s.procs.Keys);
    var a, s1, b, s2 := RotationStarts(sha, s, t, p);
    var s3 := RotationClaims(sha, s2, t, p);
    var path1, acts1 := path + [s1], acts + [a];
    var path2, acts2 := path1 + [s2], acts1 + [b];
    path', acts' := path2 + [s3], acts2 + [Claim(p)];
    OneMore(sha, path, acts, a, s1, pid);
    OneMore(sha, path1, acts1, b, s2, pid);
    ProlongsOn(sha, path, acts, path1, acts1, path2, acts2, pid);
    OneMore(sha, path2, acts2, Claim(p), s3, pid);
    ProlongsOn(sha, path, acts, path2, acts2, path', acts', pid);
  }

  lemma ProlongedContinues(sha: string -> string, path: seq<State>, acts: seq<Action>, i: nat,
                           path': seq<State>, acts': seq<Action>, pid: Id)
    requires Execution(sha, path, acts) && i < |acts|
    requires Prolongs(sha, path[..i + 2], acts[..i + 1], path', acts', pid)
    ensures Continues(sha, path, acts, i + 1, path', acts') && acts'[i] == acts[i]
  {
    assert path'[..i + 2] == path[..i + 2];
    assert acts'[..i + 1] == acts[..i + 1];
  }

  // With a mint in flight and deletes still to do: the mint lands, and they miss it.
  lemma MintOutlivesDeletes(sha: string -> string, path: seq<State>, acts: seq<Action>, g: Id, pid: Id)
    returns (path': seq<State>, acts': seq<Action>)
    requires Execution(sha, path, acts) && MintInFlight(path[|acts|], g)
    requires pid in path[|acts|].procs && path[|acts|].procs[pid].Deleting? && path[|acts|].procs[pid].items != {}
    requires path[|acts|].procs[pid].items <= path[|acts|].hist.minted.Keys
    ensures Prolongs(sha, path, acts, path', acts', pid) && |acts| < |acts'|
    ensures acts'[|acts'| - 1] != Abort(pid) && pid !in path'[|acts'|].procs
    ensures !Empty(path'[|acts'|], g)
  {
    var path1, acts1, t := LandsNow(sha, path, acts, g, pid);
    path', acts' := DeletesRun(sha, path1, acts1, pid, t);
    ProlongsOn(sha, path, acts, path1, acts1, path', acts', pid);
  }

  // What the query leaves as it was, and what it finds.
  lemma QueryKeeps(s: State, pid: Id, g: Id)
    requires pid in s.procs && s.procs[pid] == Sweeping(g)
    ensures var s' := DoQueryFamily(s, pid).value;
            && (MintInFlight(s, g) ==> MintInFlight(s', g))
            && (ClaimableRow(s, g) ==> ClaimableRow(s', g) && pid in s'.procs)
  {
    var s' := DoQueryFamily(s, pid).value;
    assert s'.tokens == s.tokens && s'.now == s.now;
    assert forall p | p != pid && p in s.procs :: p in s'.procs && s'.procs[p] == s.procs[p];
    assert forall t | t in s.tokens && s.tokens[t].payload.family == g :: t in RowsOf(s.tokens, g);
  }

  lemma QueryFinds(sha: string -> string, s: State, pid: Id, g: Id)
    requires FaithfulStores(s) && pid in s.procs && s.procs[pid] == Sweeping(g)
    ensures var s' := DoQueryFamily(s, pid).value;
            pid in s'.procs ==> s'.procs[pid].Deleting? && {} < s'.procs[pid].items <= s'.hist.minted.Keys
  {
    assert RowsOf(s.tokens, g) <= s.hist.minted.Keys;
  }

  lemma CompletesAtEnd(sha: string -> string, path: seq<State>, acts: seq<Action>, i: nat, pid: Id, g: Id,
                       path': seq<State>, acts': seq<Action>)
    requires Execution(sha, path, acts) && i < |acts| && pid in path[i + 1].procs
    requires Prolongs(sha, path[..i + 2], acts[..i + 1], path', acts', pid) && i + 1 < |acts'|
    requires acts'[|acts'| - 1] != Abort(pid) && pid !in path'[|acts'|].procs && !Empty(path'[|acts'|], g)
    ensures Completes(path', acts', i, pid, |acts'| - 1) && !NeverAgain(path', |acts'|, g)
  {
    assert path'[i + 1] == path[..i + 2][i + 1] == path[i + 1];
  }

  lemma AfterQuery(sha: string -> string, path: seq<State>, acts: seq<Action>, i: nat, g: Id)
    requires Execution(sha, path, acts) && i < |acts| && acts[i].QueryFamily?
    requires acts[i].pid in path[i].procs && path[i].procs[acts[i].pid] == Sweeping(g)
    requires MintInFlight(path[i], g) || ClaimableRow(path[i], g)
    ensures MintInFlight(path[i + 1], g) || ClaimableRow(path[i + 1], g)
    ensures if acts[i].pid in path[i + 1].procs then
              var h := path[i + 1].procs[acts[i].pid];
              h.Deleting? && {} < h.items <= path[i + 1].hist.minted.Keys
            else MintInFlight(path[i + 1], g)
  {
    assert FaithfulStores(path[i]) by { ExecutionInv(sha, path, acts, i); }
    assert Next(sha, path[i], acts[i], path[i + 1]);
    QueryKeeps(path[i], acts[i].pid, g);
    QueryFinds(sha, path[i], acts[i].pid, g);
  }

  lemma FoundNothing(sha: string -> string, path: seq<State>, acts: seq<Action>, i: nat, pid: Id, g: Id)
    returns (path': seq<State>, acts': seq<Action>)
    requires Execution(sha, path, acts) && i < |acts| && acts[i] == QueryFamily(pid)
    requires pid !in path[i + 1].procs && MintInFlight(path[i + 1], g)
    ensures Continues(sha, path, acts, i + 1, path', acts') && Completes(path', acts', i, pid, i)
    ensures !NeverAgain(path', i + 1, g)
  {
    var path0, acts0 := path[..i + 2], acts[..i + 1];
    Cut(sha, path, acts, i + 1);
    var t;
    path', acts', t := LandsNow(sha, path0, acts0, g, pid);
    ProlongedContinues(sha, path, acts, i, path', acts', pid);
    assert path'[i + 1] == path[i + 1];
    assert !Empty(path'[i + 2], g);
  }

  lemma FoundRows(sha: string -> string, path: seq<State>, acts: seq<Action>, i: nat, pid: Id, g: Id)
    returns (path': seq<State>, acts': seq<Action>)
    requires Execution(sha, path, acts) && i < |acts|
    requires MintInFlight(path[i + 1], g) || ClaimableRow(path[i + 1], g)
    requires pid in path[i + 1].procs && path[i + 1].procs[pid].Deleting?
    requires {} < path[i + 1].procs[pid].items <= path[i + 1].hist.minted.Keys
    ensures Continues(sha, path, acts, i + 1, path', acts') && |acts'| > 0
    ensures Completes(path', acts', i, pid, |acts'| - 1) && !NeverAgain(path', |acts'|, g)
  {
    Cut(sha, path, acts, i + 1);
    path', acts' := LateMint(sha, path[..i + 2], acts[..i + 1], g, pid);
    CompletesAtEnd(sha, path, acts, i, pid, g, path', acts');
    ProlongedContinues(sha, path, acts, i, path', acts', pid);
  }

  lemma EarlyQueryLeaves(sha: string -> string, path: seq<State>, acts: seq<Action>, i: nat, g: Id)
    returns (path': seq<State>, acts': seq<Action>, k: nat)
    requires Execution(sha, path, acts) && i < |acts| && acts[i].QueryFamily?
    requires acts[i].pid in path[i].procs && path[i].procs[acts[i].pid] == Sweeping(g)
    requires MintInFlight(path[i], g) || ClaimableRow(path[i], g)
    ensures Continues(sha, path, acts, i + 1, path', acts') && Completes(path', acts', i, acts[i].pid, k)
    ensures !NeverAgain(path', k + 1, g)
  {
    var pid := acts[i].pid;
    AfterQuery(sha, path, acts, i, g);
    if pid in path[i + 1].procs {
      path', acts' := FoundRows(sha, path, acts, i, pid, g);
      k := |acts'| - 1;
    } else {
      path', acts' := FoundNothing(sha, path, acts, i, pid, g);
      k := i;
    }
  }

  lemma LateMint(sha: string -> string, path: seq<State>, acts: seq<Action>, g: Id, pid: Id)
    returns (path': seq<State>, acts': seq<Action>)
    requires Execution(sha, path, acts) && (MintInFlight(path[|acts|], g) || ClaimableRow(path[|acts|], g))
    requires pid in path[|acts|].procs && path[|acts|].procs[pid].Deleting? && path[|acts|].procs[pid].items != {}
    requires path[|acts|].procs[pid].items <= path[|acts|].hist.minted.Keys
    ensures Prolongs(sha, path, acts, path', acts', pid) && |acts| < |acts'|
    ensures acts'[|acts'| - 1] != Abort(pid) && pid !in path'[|acts'|].procs
    ensures !Empty(path'[|acts'|], g)
  {
    if MintInFlight(path[|acts|], g) {
      path', acts' := MintOutlivesDeletes(sha, path, acts, g, pid);
    } else {
      path', acts' := RotationOutlivesDeletes(sha, path, acts, g, pid);
    }
  }

  // With a row that can be claimed: it is rotated first.
  lemma RotationOutlivesDeletes(sha: string -> string, path: seq<State>, acts: seq<Action>, g: Id, pid: Id)
    returns (path': seq<State>, acts': seq<Action>)
    requires Execution(sha, path, acts) && ClaimableRow(path[|acts|], g)
    requires pid in path[|acts|].procs && path[|acts|].procs[pid].Deleting? && path[|acts|].procs[pid].items != {}
    requires path[|acts|].procs[pid].items <= path[|acts|].hist.minted.Keys
    ensures Prolongs(sha, path, acts, path', acts', pid) && |acts| < |acts'|
    ensures acts'[|acts'| - 1] != Abort(pid) && pid !in path'[|acts'|].procs
    ensures !Empty(path'[|acts'|], g)
  {
    var path1, acts1 := RotatesNow(sha, path, acts, g, pid);
    path', acts' := MintOutlivesDeletes(sha, path1, acts1, g, pid);
    ProlongsOn(sha, path, acts, path1, acts1, path', acts', pid);
  }

  // A family revoked row by row is empty for good, whenever its deletes are
  // done, exactly when at the query no mint of it was in flight and none of its
  // rows could be claimed any more. The replayed token's own family fails this
  // while its newest token is live: that token can be rotated between the two.
  lemma RevocationByRows(sha: string -> string, path: seq<State>, acts: seq<Action>, i: nat, g: Id)
    requires Execution(sha, path, acts) && i < |acts| && acts[i].QueryFamily?
    requires acts[i].pid in path[i].procs && path[i].procs[acts[i].pid] == Sweeping(g)
    ensures EmptiedForGood(sha, path, acts, i, acts[i].pid, g)
       <==> !MintInFlight(path[i], g) && !ClaimableRow(path[i], g)
  {
    if MintInFlight(path[i], g) || ClaimableRow(path[i], g) {
      var path', acts', k := EarlyQueryLeaves(sha, path, acts, i, g);
    } else {
      QuietQueryEmpties(sha, path, acts, i, g);
    }
  }
}
