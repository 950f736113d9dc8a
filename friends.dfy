/**
 * The friend-request table and the two operations that change it: sending
 * a request (which may accept a pending opposite request instead) and
 * answering a received request. Users are identified by their ids; the
 * lookups of the authenticated account and of the target nickname are
 * inputs.
 */
module Friends {
  import opened Wrappers
  import Accounts

  type UserId = int

  datatype Status = Pending | Accepted | Rejected

  datatype FriendRequest = FriendRequest(id: nat, from: UserId, to: UserId, status: Status)

  datatype FriendError =
    | NickRequired        // the target nickname is empty after trimming
    | AccountMissing      // the authenticated account no longer exists
    | UserMissing         // no user has the target nickname
    | SelfRequest         // the target is the sender
    | InvalidRequestId    // the request id is not a finite number
    | InvalidAction       // the action is neither "accept" nor "reject"
    | RequestMissing      // no request has that id
    | NotRecipient        // the request was not sent to the responder

  /** The status a request operation reports, and whether it accepted an opposite request. */
  datatype Reply = Reply(status: Status, autoAccepted: bool)

  /** The table after an operation, with the reply it sends. */
  datatype Outcome = Outcome(reply: Result<Reply, FriendError>, rows: seq<FriendRequest>, nextId: nat)

  /**
   * A well-formed table: ids are distinct and below the next id to hand
   * out, and each ordered (sender, recipient) pair has at most one row.
   */
  predicate TableInvariant(rows: seq<FriendRequest>, nextId: nat)
  {
    && (forall i :: 0 <= i < |rows| ==> rows[i].id < nextId)
    && (forall i, j :: 0 <= i < j < |rows| ==> rows[i].id != rows[j].id)
    && PairsUnique(rows)
  }

  /** Each ordered (sender, recipient) pair has at most one row. */
  predicate PairsUnique(rows: seq<FriendRequest>)
  {
    forall i, j :: 0 <= i < j < |rows| ==> (rows[i].from, rows[i].to) != (rows[j].from, rows[j].to)
  }

  /** The position of the row from `from` to `to`, if there is one. */
  function FindPair(rows: seq<FriendRequest>, from: UserId, to: UserId): (r: Option<nat>)
    ensures r.Some? ==> r.value < |rows| && rows[r.value].from == from && rows[r.value].to == to
    ensures r.None? ==> forall i :: 0 <= i < |rows| ==> !(rows[i].from == from && rows[i].to == to)
  {
    if rows == [] then None
    else
      var r := FindPair(rows[..|rows| - 1], from, to);
      if r.Some? then r
      else if rows[|rows| - 1].from == from && rows[|rows| - 1].to == to then Some(|rows| - 1)
      else None
  }

  /** The position of the row with id `id`, if there is one. */
  function FindId(rows: seq<FriendRequest>, id: int): (r: Option<nat>)
    ensures r.Some? ==> r.value < |rows| && rows[r.value].id == id
    ensures r.None? ==> forall i :: 0 <= i < |rows| ==> rows[i].id != id
  {
    if rows == [] then None
    else
      var r := FindId(rows[..|rows| - 1], id);
      if r.Some? then r
      else if rows[|rows| - 1].id == id then Some(|rows| - 1)
      else None
  }

  /** Whether `a` and `b` are friends: an accepted request exists between them in either direction. */
  predicate AreFriends(rows: seq<FriendRequest>, a: UserId, b: UserId)
  {
    exists i :: 0 <= i < |rows| && rows[i].status == Accepted
      && ((rows[i].from == a && rows[i].to == b) || (rows[i].from == b && rows[i].to == a))
  }

  /** Whether some accepted row joins `a` and `b`, in either direction. */
  function AcceptedBetween(rows: seq<FriendRequest>, a: UserId, b: UserId): (r: bool)
    ensures r <==> AreFriends(rows, a, b)
  {
    if rows == [] then false
    else
      var init, last := rows[..|rows| - 1], rows[|rows| - 1];
      assert forall i :: 0 <= i < |init| ==> init[i] == rows[i];
      AcceptedBetween(init, a, b)
        || (last.status == Accepted && ((last.from == a && last.to == b) || (last.from == b && last.to == a)))
  }

  /** When pairs are unique, the pair lookup finds the only row of that pair. */
  lemma PairLookupUnique(rows: seq<FriendRequest>, from: UserId, to: UserId, i: nat)
    requires PairsUnique(rows)
    requires i < |rows| && rows[i].from == from && rows[i].to == to
    ensures FindPair(rows, from, to) == Some(i)
  {
  }

  /** Changing the status of one row keeps the table well formed. */
  lemma StatusChangeKeepsInvariant(rows: seq<FriendRequest>, nextId: nat, k: nat, st: Status)
    requires TableInvariant(rows, nextId) && k < |rows|
    ensures TableInvariant(rows[k := rows[k].(status := st)], nextId)
  {
  }

  /** Appending a row with a fresh id and a new pair keeps the table well formed. */
  lemma AppendKeepsInvariant(rows: seq<FriendRequest>, nextId: nat, from: UserId, to: UserId)
    requires TableInvariant(rows, nextId)
    requires FindPair(rows, from, to).None?
    ensures TableInvariant(rows + [FriendRequest(nextId, from, to, Pending)], nextId + 1)
  {
  }

  /**
   * Sending a request from `me` to the user named `toUsername` (looked up
   * as `target`): an empty nickname, a missing account or user and a
   * request to oneself are rejected, in that order. A pending request in
   * the opposite direction is accepted instead; an accepted request in
   * either direction is reported as it is; otherwise a pending row from
   * `me` to the target is added, or, when that pair already has a row,
   * that row's status is reported.
   */
  function RequestOutcome(rows: seq<FriendRequest>, nextId: nat, me: Option<UserId>,
                          toUsername: Option<string>, target: Option<UserId>): (o: Outcome)
    ensures o.reply.Err? ==> o.rows == rows && o.nextId == nextId
  {
    if Accounts.NormalizeUsername(toUsername) == [] then Outcome(Err(NickRequired), rows, nextId)
    else if me.None? then Outcome(Err(AccountMissing), rows, nextId)
    else if target.None? then Outcome(Err(UserMissing), rows, nextId)
    else if target.value == me.value then Outcome(Err(SelfRequest), rows, nextId)
    else
      var m, t := me.value, target.value;
      var opposite := FindPair(rows, t, m);
      if opposite.Some? && rows[opposite.value].status == Pending then
        var k := opposite.value;
        Outcome(Ok(Reply(Accepted, true)), rows[k := rows[k].(status := Accepted)], nextId)
      else if AcceptedBetween(rows, m, t) then
        Outcome(Ok(Reply(Accepted, false)), rows, nextId)
      else
        var existing := FindPair(rows, m, t);
        if existing.Some? then Outcome(Ok(Reply(rows[existing.value].status, false)), rows, nextId)
        else Outcome(Ok(Reply(Pending, false)), rows + [FriendRequest(nextId, m, t, Pending)], nextId + 1)
  }

  /**
   * Answering request `requestId` as `me` with `action`: an id that is not
   * a finite number, an action other than "accept" or "reject", a missing
   * account, an unknown request and a request not addressed to `me` are
   * rejected, in that order; otherwise the request's status becomes
   * accepted or rejected, whatever it was before.
   */
  function RespondOutcome(rows: seq<FriendRequest>, nextId: nat, me: Option<UserId>,
                          requestId: Option<int>, action: string): (o: Outcome)
    ensures o.nextId == nextId && |o.rows| == |rows|
    ensures o.reply.Err? ==> o.rows == rows
  {
    if requestId.None? then Outcome(Err(InvalidRequestId), rows, nextId)
    else if action != "accept" && action != "reject" then Outcome(Err(InvalidAction), rows, nextId)
    else if me.None? then Outcome(Err(AccountMissing), rows, nextId)
    else
      var found := FindId(rows, requestId.value);
      if found.None? then Outcome(Err(RequestMissing), rows, nextId)
      else if rows[found.value].to != me.value then Outcome(Err(NotRecipient), rows, nextId)
      else
        var status := if action == "accept" then Accepted else Rejected;
        var k := found.value;
        Outcome(Ok(Reply(status, false)), rows[k := rows[k].(status := status)], nextId)
  }

  /** Both operations keep the table well formed. */
  lemma RequestKeepsInvariant(rows: seq<FriendRequest>, nextId: nat, me: Option<UserId>,
                              toUsername: Option<string>, target: Option<UserId>)
    requires TableInvariant(rows, nextId)
    ensures var o := RequestOutcome(rows, nextId, me, toUsername, target);
      TableInvariant(o.rows, o.nextId)
  {
    if Accounts.NormalizeUsername(toUsername) != [] && me.Some? && target.Some? && target.value != me.value {
      var m, t := me.value, target.value;
      var opposite := FindPair(rows, t, m);
      if opposite.Some? && rows[opposite.value].status == Pending {
        StatusChangeKeepsInvariant(rows, nextId, opposite.value, Accepted);
      } else if !AcceptedBetween(rows, m, t) && FindPair(rows, m, t).None? {
        AppendKeepsInvariant(rows, nextId, m, t);
      }
    }
  }

  lemma RespondKeepsInvariant(rows: seq<FriendRequest>, nextId: nat, me: Option<UserId>,
                              requestId: Option<int>, action: string)
    requires TableInvariant(rows, nextId)
    ensures var o := RespondOutcome(rows, nextId, me, requestId, action);
      TableInvariant(o.rows, o.nextId)
  {
    if requestId.Some? && (action == "accept" || action == "reject") && me.Some? {
      var found := FindId(rows, requestId.value);
      if found.Some? {
        StatusChangeKeepsInvariant(rows, nextId, found.value, if action == "accept" then Accepted else Rejected);
      }
    }
  }

  /** A request to oneself is rejected and changes nothing. */
  lemma SelfRequestRejected(rows: seq<FriendRequest>, nextId: nat, me: UserId, toUsername: Option<string>)
    requires Accounts.NormalizeUsername(toUsername) != []
    ensures RequestOutcome(rows, nextId, Some(me), toUsername, Some(me)) == Outcome(Err(SelfRequest), rows, nextId)
  {
  }

  /**
   * A pending request from the target is accepted: the reply says so, that
   * row alone becomes accepted, no row is added, and the two are friends.
   */
  lemma PendingOppositeAccepted(rows: seq<FriendRequest>, nextId: nat, me: UserId,
                                toUsername: Option<string>, target: UserId, k: nat)
    requires TableInvariant(rows, nextId)
    requires Accounts.NormalizeUsername(toUsername) != [] && target != me
    requires k < |rows| && rows[k].from == target && rows[k].to == me && rows[k].status == Pending
    ensures var o := RequestOutcome(rows, nextId, Some(me), toUsername, Some(target));
      && o.reply == Ok(Reply(Accepted, true))
      && o.rows == rows[k := rows[k].(status := Accepted)]
      && o.nextId == nextId
      && AreFriends(o.rows, me, target)
  {
    PairLookupUnique(rows, target, me, k);
    var o := RequestOutcome(rows, nextId, Some(me), toUsername, Some(target));
    assert o.rows[k].status == Accepted && o.rows[k].from == target && o.rows[k].to == me;
  }

  /** Friends stay friends: a request between friends (with no pending opposite row) changes nothing. */
  lemma FriendsRequestUnchanged(rows: seq<FriendRequest>, nextId: nat, me: UserId,
                                toUsername: Option<string>, target: UserId)
    requires Accounts.NormalizeUsername(toUsername) != [] && target != me
    requires AreFriends(rows, me, target)
    requires var opp := FindPair(rows, target, me); !(opp.Some? && rows[opp.value].status == Pending)
    ensures RequestOutcome(rows, nextId, Some(me), toUsername, Some(target))
            == Outcome(Ok(Reply(Accepted, false)), rows, nextId)
  {
  }

  /**
   * Without any row between the two, a request adds exactly one pending row
   * from `me` to the target, with the next id.
   */
  lemma FirstRequestPending(rows: seq<FriendRequest>, nextId: nat, me: UserId,
                            toUsername: Option<string>, target: UserId)
    requires Accounts.NormalizeUsername(toUsername) != [] && target != me
    requires forall i :: 0 <= i < |rows| ==>
               !(rows[i].from == me && rows[i].to == target) && !(rows[i].from == target && rows[i].to == me)
    ensures RequestOutcome(rows, nextId, Some(me), toUsername, Some(target))
            == Outcome(Ok(Reply(Pending, false)), rows + [FriendRequest(nextId, me, target, Pending)], nextId + 1)
  {
  }

  /** Repeating a request whose row is still pending or was rejected reports that status and adds nothing. */
  lemma RepeatedRequestReported(rows: seq<FriendRequest>, nextId: nat, me: UserId,
                                toUsername: Option<string>, target: UserId, k: nat)
    requires TableInvariant(rows, nextId)
    requires Accounts.NormalizeUsername(toUsername) != [] && target != me
    requires k < |rows| && rows[k].from == me && rows[k].to == target && rows[k].status != Accepted
    requires !AreFriends(rows, me, target)
    requires var opp := FindPair(rows, target, me); !(opp.Some? && rows[opp.value].status == Pending)
    ensures RequestOutcome(rows, nextId, Some(me), toUsername, Some(target))
            == Outcome(Ok(Reply(rows[k].status, false)), rows, nextId)
  {
    PairLookupUnique(rows, me, target, k);
  }

  /**
   * Only the recipient may answer: a successful answer is by the request's
   * recipient and sets exactly its status as the action says; every other
   * row is unchanged.
   */
  lemma RespondOnlyRecipient(rows: seq<FriendRequest>, nextId: nat, me: Option<UserId>,
                             requestId: Option<int>, action: string)
    ensures var o := RespondOutcome(rows, nextId, me, requestId, action);
      o.reply.Ok? ==>
        && me.Some? && requestId.Some?
        && (action == "accept" || action == "reject")
        && exists k :: 0 <= k < |rows| && rows[k].id == requestId.value && rows[k].to == me.value
             && o.rows[k] == rows[k].(status := if action == "accept" then Accepted else Rejected)
             && o.reply.value.status == o.rows[k].status
             && forall j :: 0 <= j < |rows| && j != k ==> o.rows[j] == rows[j]
  {
    var o := RespondOutcome(rows, nextId, me, requestId, action);
    if o.reply.Ok? {
      var k := FindId(rows, requestId.value).value;
      assert rows[k].id == requestId.value && rows[k].to == me.value;
    }
  }

  /** A responder who is not the request's recipient is refused and nothing changes. */
  lemma RespondByOtherRefused(rows: seq<FriendRequest>, nextId: nat, me: UserId,
                              id: int, action: string, k: nat)
    requires TableInvariant(rows, nextId)
    requires action == "accept" || action == "reject"
    requires k < |rows| && rows[k].id == id && rows[k].to != me
    ensures RespondOutcome(rows, nextId, Some(me), Some(id), action) == Outcome(Err(NotRecipient), rows, nextId)
  {
    var f := FindId(rows, id);
    assert f.value == k;
  }

  /** The friend-request table as the server keeps it. */
  class FriendTable {
    var rows: seq<FriendRequest>
    var nextId: nat

    ghost predicate Valid()
      reads this
    {
      TableInvariant(rows, nextId)
    }

    constructor ()
      ensures Valid() && rows == [] && nextId == 1
    {
      rows, nextId := [], 1;
    }

    /** Handles a friend request from `me` to the user named `toUsername`, found as `target`. */
    method Request(me: Option<UserId>, toUsername: Option<string>, target: Option<UserId>)
      returns (reply: Result<Reply, FriendError>)
      requires Valid()
      modifies this
      ensures Valid()
      ensures var o := RequestOutcome(old(rows), old(nextId), me, toUsername, target);
        reply == o.reply && rows == o.rows && nextId == o.nextId
    {
      RequestKeepsInvariant(rows, nextId, me, toUsername, target);
      var name := Accounts.NormalizeUsername(toUsername);
      if name == [] {
        return Err(NickRequired);
      }
      if me.None? {
        return Err(AccountMissing);
      }
      if target.None? {
        return Err(UserMissing);
      }
      if target.value == me.value {
        return Err(SelfRequest);
      }
      var opposite := FindPair(rows, target.value, me.value);
      if opposite.Some? && rows[opposite.value].status == Pending {
        rows := rows[opposite.value := rows[opposite.value].(status := Accepted)];
        return Ok(Reply(Accepted, true));
      }
      if AcceptedBetween(rows, me.value, target.value) {
        return Ok(Reply(Accepted, false));
      }
      var existing := FindPair(rows, me.value, target.value);
      if existing.Some? {
        return Ok(Reply(rows[existing.value].status, false));
      }
      rows := rows + [FriendRequest(nextId, me.value, target.value, Pending)];
      nextId := nextId + 1;
      return Ok(Reply(Pending, false));
    }

    /** Handles `me`'s answer `action` to request `requestId`. */
    method Respond(me: Option<UserId>, requestId: Option<int>, action: string)
      returns (reply: Result<Reply, FriendError>)
      requires Valid()
      modifies this
      ensures Valid()
      ensures var o := RespondOutcome(old(rows), old(nextId), me, requestId, action);
        reply == o.reply && rows == o.rows && nextId == o.nextId
    {
      RespondKeepsInvariant(rows, nextId, me, requestId, action);
      if requestId.None? {
        return Err(InvalidRequestId);
      }
      if action != "accept" && action != "reject" {
        return Err(InvalidAction);
      }
      if me.None? {
        return Err(AccountMissing);
      }
      var found := FindId(rows, requestId.value);
      if found.None? {
        return Err(RequestMissing);
      }
      if rows[found.value].to != me.value {
        return Err(NotRecipient);
      }
      var status := if action == "accept" then Accepted else Rejected;
      rows := rows[found.value := rows[found.value].(status := status)];
      return Ok(Reply(status, false));
    }
  }
}
