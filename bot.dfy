/**
 * The `/log-playtime` request handler: the request guard, the not-a-member
 * short-circuit, and the promotion pass over the table that appends to the
 * in-memory promotion log.
 *
 * The two calls to the group service become oracle parameters:
 * `getCurrentRank` gives the user's role id, or None when the lookup failed
 * or the user is not in the group; `promote` says whether the rank change
 * for a (user, role id) pair was accepted.
 */
module Bot {
  import opened Promotions

  datatype Option<T> = None | Some(value: T)

  /** What the handler answers. `NotInGroup` and `Done` are both status 200. */
  datatype Response = Unauthorized | BadRequest | NotInGroup | Done

  /** The HTTP status of each answer. */
  function StatusCode(r: Response): (code: int)
    ensures code == 403 <==> r == Unauthorized
    ensures code == 400 <==> r == BadRequest
    ensures code == 200 <==> r == NotInGroup || r == Done
  {
    match r
    case Unauthorized => 403
    case BadRequest => 400
    case NotInGroup => 200
    case Done => 200
  }

  /** JavaScript truthiness of the `userId` body field: missing, null, the
      empty string and the number 0 are falsy. */
  predicate TruthyUserId(userId: Option<UserId>)
    ensures TruthyUserId(userId) <==> userId !in {None, Some(Str("")), Some(Num(0))}
  {
    match userId
    case None => false
    case Some(Str(s)) => s != ""
    case Some(Num(n)) => n != 0
  }

  /** JavaScript truthiness of the `playtime` body field: missing, null and
      0 are falsy; a negative playtime is truthy. */
  predicate TruthyPlaytime(playtime: Option<real>)
    ensures TruthyPlaytime(playtime) <==> playtime !in {None, Some(0.0)}
  {
    playtime.Some? && playtime.value != 0.0
  }

  /** JavaScript truthiness of the role id returned by the rank lookup:
      null (lookup failed or not a member) and 0 mean "not in group". */
  predicate IsMember(rank: Option<int>)
    ensures IsMember(rank) <==> rank !in {None, Some(0)}
  {
    rank.Some? && rank.value != 0
  }

  datatype Verdict = Reject(response: Response) | Proceed(userId: UserId, playtime: real)

  /** The request guard: the API key is compared first, then both body
      fields are tested for truthiness. */
  function Guard(apiKey: Option<string>, configuredKey: Option<string>,
                 userId: Option<UserId>, playtime: Option<real>): (v: Verdict)
    ensures v == Reject(Unauthorized) <==> apiKey != configuredKey
    ensures v == Reject(BadRequest) <==>
            apiKey == configuredKey && (!TruthyUserId(userId) || !TruthyPlaytime(playtime))
    ensures v.Proceed? <==> apiKey == configuredKey && TruthyUserId(userId) && TruthyPlaytime(playtime)
    ensures v.Proceed? ==> userId == Some(v.userId) && playtime == Some(v.playtime) && v.playtime != 0.0
  {
    if apiKey != configuredKey then Reject(Unauthorized)
    else if !TruthyUserId(userId) || !TruthyPlaytime(playtime) then Reject(BadRequest)
    else Proceed(userId.value, playtime.value)
  }

  /** A playtime of zero is rejected as a missing parameter. */
  lemma ZeroPlaytimeIsBadRequest(key: Option<string>, userId: Option<UserId>)
    ensures Guard(key, key, userId, Some(0.0)) == Reject(BadRequest)
  {
  }

  /** The process-wide promotion log, loaded once at start-up and appended
      to by every promotion pass. */
  class PromotionBot {
    var log: seq<Entry>

    /** Start with the log read from storage (empty when none could be read). */
    constructor (persisted: seq<Entry>)
      ensures log == persisted
    {
      log := persisted;
    }

    /** One promotion pass for a member: walk the table in order, attempt
        every eligible tier this user has no log entry for, and append one
        entry for each attempt that succeeded.  Returns the attempted tier
        indices (the calls made to the promotion service). */
    method ProcessReport(userId: UserId, playtime: real, currentRank: int,
                         promote: (UserId, int) -> bool) returns (attempted: seq<nat>)
      modifies this
      ensures attempted == Attempted(old(log), userId, playtime, currentRank, |Table|)
      ensures log == PassLog(old(log), userId, playtime, currentRank, promote)
      ensures old(log) <= log
    {
      ghost var log0 := log;
      attempted := [];
      var i := 0;
      while i < |Table|
        invariant 0 <= i <= |Table|
        invariant attempted == Attempted(log0, userId, playtime, currentRank, i)
        invariant log == log0 + EntriesFor(userId, Succeeded(log0, userId, playtime, currentRank, promote, i))
      {
        var promo := Table[i];
        PassStep(log0, userId, playtime, currentRank, promote, i);
        if Eligible(promo, playtime, currentRank) {
          var alreadyPromoted := AlreadyPromoted(log, userId, promo.roleId);
          if !alreadyPromoted {
            var success := promote(userId, promo.roleId);
            attempted := attempted + [i];
            if success {
              log := log + [Entry(userId, promo.roleId)];
            }
          }
        }
        i := i + 1;
      }
    }

    /** The whole handler: guard, rank lookup, not-a-member short-circuit,
        then the promotion pass.  A rejected request and a non-member leave
        the log as it was and make no promotion call. */
    method LogPlaytime(apiKey: Option<string>, configuredKey: Option<string>,
                       userId: Option<UserId>, playtime: Option<real>,
                       getCurrentRank: UserId -> Option<int>, promote: (UserId, int) -> bool)
      returns (response: Response, attempted: seq<nat>)
      modifies this
      ensures StatusCode(response) ==
              if apiKey != configuredKey then 403
              else if !TruthyUserId(userId) || !TruthyPlaytime(playtime) then 400
              else 200
      ensures match Guard(apiKey, configuredKey, userId, playtime)
              case Reject(r) =>
                response == r && attempted == [] && log == old(log)
              case Proceed(u, p) =>
                if !IsMember(getCurrentRank(u)) then
                  response == NotInGroup && attempted == [] && log == old(log)
                else
                  var rank := getCurrentRank(u).value;
                  response == Done &&
                  attempted == Attempted(old(log), u, p, rank, |Table|) &&
                  log == PassLog(old(log), u, p, rank, promote)
    {
      match Guard(apiKey, configuredKey, userId, playtime)
      case Reject(r) =>
        response, attempted := r, [];
      case Proceed(u, p) =>
        var currentRank := getCurrentRank(u);
        if !IsMember(currentRank) {
          response, attempted := NotInGroup, [];
        } else {
          attempted := ProcessReport(u, p, currentRank.value, promote);
          response := Done;
        }
    }
  }
}
