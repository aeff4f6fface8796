/**
 * The promotion table and the pure specification of one promotion pass of
 * the `/log-playtime` handler: which tiers are attempted, which succeed, and
 * what the promotion log looks like afterwards.
 *
 * The pass is specified against the log as it was BEFORE the pass (a filter
 * over the table).  The handler itself re-reads the growing log at every
 * tier; the two agree because the table's role ids are distinct
 * (RoleIdsDistinct), which the class in module Bot proves for its loop.
 */
module Promotions {

  /** A user id as it arrives in the JSON body: a string or a number.
      Strict equality (`===`) never equates a string with a number. */
  datatype UserId = Str(s: string) | Num(n: int)

  /** One row of the promotion table: a playtime threshold in seconds and
      the group role id to promote to. */
  datatype Tier = Tier(seconds: nat, roleId: int)

  /** One record of the promotion log.  The ISO timestamp the source stores
      beside these two fields is not modelled (it is never compared). */
  datatype Entry = Entry(userId: UserId, roleId: int)

  /** The literal promotion table, in source order.  The role ids are not
      ascending. */
  const Table: seq<Tier> := [
    Tier(20, 116368233),
    Tier(40, 112856307),
    Tier(60, 112064304),
    Tier(180, 113240294)
  ]

  /** The thresholds rise with tier index while the role ids do not: the
      second and third role ids are below the first. */
  lemma TableShape()
    ensures |Table| == 4
    ensures forall i, j :: 0 <= i < j < |Table| ==> Table[i].seconds < Table[j].seconds
    ensures Table[0].seconds == 20 && Table[|Table| - 1].seconds == 180
    ensures Table[1].roleId < Table[0].roleId && Table[2].roleId < Table[1].roleId && Table[0].roleId > Table[3].roleId
  {
  }

  lemma RoleIdsDistinct()
    ensures forall i, j :: 0 <= i < |Table| && 0 <= j < |Table| && i != j ==> Table[i].roleId != Table[j].roleId
  {
  }

  /** The per-tier test: enough playtime, and a current role id below the
      tier's role id (a raw comparison of role ids). */
  predicate Eligible(t: Tier, playtime: real, currentRank: int)
  {
    playtime >= t.seconds as real && currentRank < t.roleId
  }

  /** The idempotency check: the log already holds an entry for this user
      and this role id. */
  predicate AlreadyPromoted(log: seq<Entry>, u: UserId, roleId: int)
    ensures AlreadyPromoted(log, u, roleId) <==> Entry(u, roleId) in log
  {
    exists e :: e in log && e.userId == u && e.roleId == roleId
  }

  /** Tier `i` is one the pass calls the external promotion for, judged
      against `log`. */
  predicate Candidate(log: seq<Entry>, u: UserId, playtime: real, currentRank: int, i: nat)
    requires i < |Table|
  {
    Eligible(Table[i], playtime, currentRank) && !AlreadyPromoted(log, u, Table[i].roleId)
  }

  ghost predicate Increasing(s: seq<nat>)
  {
    forall a, b :: 0 <= a < b < |s| ==> s[a] < s[b]
  }

  /** The tiers among the first `n` that the pass attempts, in table order. */
  function Attempted(log: seq<Entry>, u: UserId, playtime: real, currentRank: int, n: nat): (s: seq<nat>)
    requires n <= |Table|
    ensures forall k :: 0 <= k < |s| ==> s[k] < n
    decreases n
  {
    if n == 0 then []
    else
      var s := Attempted(log, u, playtime, currentRank, n - 1);
      if Candidate(log, u, playtime, currentRank, n - 1) then s + [n - 1] else s
  }

  /** The tiers among the first `n` that the pass attempts and whose
      promotion call reports success, in table order. */
  function Succeeded(log: seq<Entry>, u: UserId, playtime: real, currentRank: int,
                     promote: (UserId, int) -> bool, n: nat): (s: seq<nat>)
    requires n <= |Table|
    ensures forall k :: 0 <= k < |s| ==> s[k] < n
    ensures |s| <= n
    decreases n
  {
    if n == 0 then []
    else
      var s := Succeeded(log, u, playtime, currentRank, promote, n - 1);
      if Candidate(log, u, playtime, currentRank, n - 1) && promote(u, Table[n - 1].roleId) then s + [n - 1] else s
  }

  ghost predicate TierIndices(idx: seq<nat>)
  {
    forall k :: 0 <= k < |idx| ==> idx[k] < |Table|
  }

  /** The log entries for the given tiers, one per tier, in the same order. */
  function EntriesFor(u: UserId, idx: seq<nat>): seq<Entry>
    requires TierIndices(idx)
  {
    seq(|idx|, k requires 0 <= k < |idx| => Entry(u, Table[idx[k]].roleId))
  }

  /** The entries one pass appends to `log`. */
  function Appended(log: seq<Entry>, u: UserId, playtime: real, currentRank: int,
                    promote: (UserId, int) -> bool): seq<Entry>
  {
    EntriesFor(u, Succeeded(log, u, playtime, currentRank, promote, |Table|))
  }

  /** The log after one pass. */
  function PassLog(log: seq<Entry>, u: UserId, playtime: real, currentRank: int,
                   promote: (UserId, int) -> bool): (r: seq<Entry>)
    ensures log <= r && |r| <= |log| + |Table|
    ensures forall k :: |log| <= k < |r| ==> r[k].userId == u
  {
    log + Appended(log, u, playtime, currentRank, promote)
  }

  /** No two log entries share a (userId, roleId) pair. */
  ghost predicate NoDuplicates(log: seq<Entry>)
  {
    forall a, b :: 0 <= a < b < |log| ==> !(log[a].userId == log[b].userId && log[a].roleId == log[b].roleId)
  }

  // ---------------------------------------------------------------------
  // Properties of one pass

  /** The attempted tiers are exactly the candidates, each once, in table
      order. */
  lemma {:induction false} AttemptedMembers(log: seq<Entry>, u: UserId, playtime: real, currentRank: int, n: nat)
    requires n <= |Table|
    ensures var s := Attempted(log, u, playtime, currentRank, n);
            (forall i: nat :: i in s <==> i < n && Candidate(log, u, playtime, currentRank, i)) &&
            Increasing(s)
  {
    if n > 0 {
      AttemptedMembers(log, u, playtime, currentRank, n - 1);
    }
  }

  /** The succeeded tiers are exactly the attempted tiers whose promotion
      call reported success, each once, in table order. */
  lemma {:induction false} SucceededMembers(log: seq<Entry>, u: UserId, playtime: real, currentRank: int,
                                            promote: (UserId, int) -> bool, n: nat)
    requires n <= |Table|
    ensures var s := Succeeded(log, u, playtime, currentRank, promote, n);
            (forall i: nat :: i in s <==> i < n && Candidate(log, u, playtime, currentRank, i) && promote(u, Table[i].roleId)) &&
            Increasing(s)
  {
    if n > 0 {
      SucceededMembers(log, u, playtime, currentRank, promote, n - 1);
    }
  }

  /** A tier is attempted exactly when its playtime threshold is met, the
      current role id is below the tier's, and the log has no entry for
      this user and role id. */
  lemma AttemptCondition(log: seq<Entry>, u: UserId, playtime: real, currentRank: int, i: nat)
    requires i < |Table|
    ensures i in Attempted(log, u, playtime, currentRank, |Table|) <==>
            playtime >= Table[i].seconds as real && currentRank < Table[i].roleId &&
            !(exists e :: e in log && e.userId == u && e.roleId == Table[i].roleId)
  {
    AttemptedMembers(log, u, playtime, currentRank, |Table|);
  }

  /** With less playtime than the lowest threshold nothing is attempted. */
  lemma BelowLowestThresholdNothingAttempted(log: seq<Entry>, u: UserId, playtime: real, currentRank: int)
    requires playtime < 20.0
    ensures Attempted(log, u, playtime, currentRank, |Table|) == []
  {
    NoCandidateNoAttempt(log, u, playtime, currentRank, (_, _) => false, |Table|);
  }

  /** The entries a pass appends belong to the reporting user, one per
      successful tier, in table order, and each is new to the log. */
  lemma AppendedShape(log: seq<Entry>, u: UserId, playtime: real, currentRank: int,
                      promote: (UserId, int) -> bool)
    ensures var s := Succeeded(log, u, playtime, currentRank, promote, |Table|);
            var app := Appended(log, u, playtime, currentRank, promote);
            |app| == |s| && Increasing(s) &&
            forall k :: 0 <= k < |app| ==>
              app[k] == Entry(u, Table[s[k]].roleId) &&
              !AlreadyPromoted(log, u, app[k].roleId)
  {
    var s := Succeeded(log, u, playtime, currentRank, promote, |Table|);
    SucceededMembers(log, u, playtime, currentRank, promote, |Table|);
    forall k | 0 <= k < |s|
      ensures Candidate(log, u, playtime, currentRank, s[k])
    {
      assert s[k] in s;
    }
  }

  /** The log after a pass holds an entry for tier `i` of the reporting user
      exactly when it held one before or tier `i` was attempted and its
      promotion succeeded. */
  lemma PromotedAfterPass(log: seq<Entry>, u: UserId, playtime: real, currentRank: int,
                          promote: (UserId, int) -> bool, i: nat)
    requires i < |Table|
    ensures AlreadyPromoted(PassLog(log, u, playtime, currentRank, promote), u, Table[i].roleId) <==>
            AlreadyPromoted(log, u, Table[i].roleId) ||
            (i in Attempted(log, u, playtime, currentRank, |Table|) && promote(u, Table[i].roleId))
  {
    var s := Succeeded(log, u, playtime, currentRank, promote, |Table|);
    var app := Appended(log, u, playtime, currentRank, promote);
    SucceededMembers(log, u, playtime, currentRank, promote, |Table|);
    AttemptedMembers(log, u, playtime, currentRank, |Table|);
    AppendedHasTier(u, s, i);
    AlreadyPromotedConcat(log, app, u, Table[i].roleId);
  }

  /** A pass never introduces a duplicate (userId, roleId) pair. */
  lemma {:induction false} PassKeepsNoDuplicates(log: seq<Entry>, u: UserId, playtime: real, currentRank: int,
                                                 promote: (UserId, int) -> bool)
    requires NoDuplicates(log)
    ensures NoDuplicates(PassLog(log, u, playtime, currentRank, promote))
  {
    var s := Succeeded(log, u, playtime, currentRank, promote, |Table|);
    var app := Appended(log, u, playtime, currentRank, promote);
    var out := PassLog(log, u, playtime, currentRank, promote);
    AppendedShape(log, u, playtime, currentRank, promote);
    RoleIdsDistinct();
    forall a, b | 0 <= a < b < |out|
      ensures !(out[a].userId == out[b].userId && out[a].roleId == out[b].roleId)
    {
      if b >= |log| {
        var kb := b - |log|;
        assert out[b] == app[kb];
        if a < |log| {
          assert out[a] in log;
          if out[a].userId == out[b].userId && out[a].roleId == out[b].roleId {
            assert AlreadyPromoted(log, u, app[kb].roleId);
            assert false;
          }
        } else {
          var ka := a - |log|;
          assert out[a] == app[ka];
          assert s[ka] < s[kb];
        }
      } else {
        assert out[a] == log[a] && out[b] == log[b];
      }
    }
  }

  /** Re-running a pass with the same user, playtime and rank attempts
      exactly the tiers whose promotion failed the first time. */
  lemma RepassRetriesOnlyFailures(log: seq<Entry>, u: UserId, playtime: real, currentRank: int,
                                  promote: (UserId, int) -> bool, i: nat)
    ensures var after := PassLog(log, u, playtime, currentRank, promote);
            i in Attempted(after, u, playtime, currentRank, |Table|) <==>
            i in Attempted(log, u, playtime, currentRank, |Table|) && !promote(u, Table[i].roleId)
  {
    AttemptedMembers(log, u, playtime, currentRank, |Table|);
    AttemptedMembers(PassLog(log, u, playtime, currentRank, promote), u, playtime, currentRank, |Table|);
    if i < |Table| {
      PromotedAfterPass(log, u, playtime, currentRank, promote, i);
    }
  }

  /** Idempotence: once every attempted tier has succeeded, a second pass
      with the same user, playtime and rank attempts nothing and leaves the
      log as it is, whatever the promotion calls would answer. */
  lemma SecondPassIsNoOp(log: seq<Entry>, u: UserId, playtime: real, currentRank: int,
                         promote: (UserId, int) -> bool, promoteAgain: (UserId, int) -> bool)
    requires forall i :: i in Attempted(log, u, playtime, currentRank, |Table|) ==> promote(u, Table[i].roleId)
    ensures var after := PassLog(log, u, playtime, currentRank, promote);
            Attempted(after, u, playtime, currentRank, |Table|) == [] &&
            PassLog(after, u, playtime, currentRank, promoteAgain) == after
  {
    var after := PassLog(log, u, playtime, currentRank, promote);
    forall i: nat | i < |Table|
      ensures !Candidate(after, u, playtime, currentRank, i)
    {
      RepassRetriesOnlyFailures(log, u, playtime, currentRank, promote, i);
      AttemptedMembers(after, u, playtime, currentRank, |Table|);
    }
    NoCandidateNoAttempt(after, u, playtime, currentRank, promoteAgain, |Table|);
  }

  /** With the literal table, eligibility is not monotone in tier index: a
      member whose role id lies between the table's ids skips the middle
      tiers and is attempted for the first and the last. */
  lemma RawRoleIdComparisonSkipsMiddleTiers(u: UserId)
    ensures Attempted([], u, 200.0, 112900000, |Table|) == [0, 3]
  {
  }

  // ---------------------------------------------------------------------
  // Helpers

  /** When no tier below `n` is a candidate, nothing is attempted and
      nothing succeeds. */
  lemma {:induction false} NoCandidateNoAttempt(log: seq<Entry>, u: UserId, playtime: real, currentRank: int,
                                                promote: (UserId, int) -> bool, n: nat)
    requires n <= |Table|
    requires forall i: nat :: i < n ==> !Candidate(log, u, playtime, currentRank, i)
    ensures Attempted(log, u, playtime, currentRank, n) == []
    ensures Succeeded(log, u, playtime, currentRank, promote, n) == []
  {
    if n > 0 {
      NoCandidateNoAttempt(log, u, playtime, currentRank, promote, n - 1);
    }
  }

  lemma AlreadyPromotedConcat(log: seq<Entry>, more: seq<Entry>, u: UserId, roleId: int)
    ensures AlreadyPromoted(log + more, u, roleId) <==>
            AlreadyPromoted(log, u, roleId) || AlreadyPromoted(more, u, roleId)
  {
  }

  /** One step of the pass, tier `i`: how the attempted and succeeded tiers
      and the log so far grow. */
  lemma PassStep(log: seq<Entry>, u: UserId, playtime: real, currentRank: int,
                 promote: (UserId, int) -> bool, i: nat)
    requires i < |Table|
    ensures var done := Succeeded(log, u, playtime, currentRank, promote, i);
            var cand := Eligible(Table[i], playtime, currentRank) &&
                        !AlreadyPromoted(log + EntriesFor(u, done), u, Table[i].roleId);
            var ok := cand && promote(u, Table[i].roleId);
            && Attempted(log, u, playtime, currentRank, i + 1) ==
                 Attempted(log, u, playtime, currentRank, i) + (if cand then [i] else [])
            && Succeeded(log, u, playtime, currentRank, promote, i + 1) == done + (if ok then [i] else [])
            && log + EntriesFor(u, Succeeded(log, u, playtime, currentRank, promote, i + 1)) ==
                 log + EntriesFor(u, done) + (if ok then [Entry(u, Table[i].roleId)] else [])
  {
    var done := Succeeded(log, u, playtime, currentRank, promote, i);
    // The entries appended so far belong to tiers below i, so they never
    // answer the check for tier i.
    AlreadyPromotedConcat(log, EntriesFor(u, done), u, Table[i].roleId);
    AppendedHasTier(u, done, i);
    assert EntriesFor(u, done + [i]) == EntriesFor(u, done) + [Entry(u, Table[i].roleId)];
  }

  /** The entries for a set of tiers name tier `i`'s role id exactly when
      `i` is among those tiers. */
  lemma AppendedHasTier(u: UserId, idx: seq<nat>, i: nat)
    requires TierIndices(idx) && i < |Table|
    ensures AlreadyPromoted(EntriesFor(u, idx), u, Table[i].roleId) <==> i in idx
  {
    var es := EntriesFor(u, idx);
    RoleIdsDistinct();
    if AlreadyPromoted(es, u, Table[i].roleId) {
      var e :| e in es && e.userId == u && e.roleId == Table[i].roleId;
      var k :| 0 <= k < |es| && es[k] == e;
      assert idx[k] == i;
    }
    if i in idx {
      var k :| 0 <= k < |idx| && idx[k] == i;
      assert es[k] in es;
    }
  }
}
