/** The admin user endpoints: the page block of `getAllUsers`, whose
    total depends on whether a search term was given, and the not-found
    rule of `deleteUser`. The user documents themselves and the text
    search that selects them are not modelled; the two counts the
    handler can report are inputs. */
module Users {

  import opened Wrappers
  import Strings
  import Pagination
  import Ledger

  /** The answer of `getAllUsers`. `matching` is the number of users
      the text search for `search` matches, `estimated` the collection's
      estimated size, and `storageFails` says the find or the count
      throws. Page falls back to 1 and limit to 10 as in the other
      listings, and a negative skip answers 500 as a thrown error does;
      `total` is the search count exactly when a non-empty search term
      was given. */
  function AllUsersPage(pageParam: Option<int>, limitParam: Option<int>, search: Option<string>,
                        matching: nat, estimated: nat, storageFails: bool): (r: Pagination.Listing)
    ensures r.ListFailed? <==>
              storageFails || Pagination.Skip(Pagination.OrDefault(pageParam, 1), Pagination.OrDefault(limitParam, 10)) < 0
    ensures r.Listed? ==> r.info.page == Pagination.OrDefault(pageParam, 1)
    ensures r.Listed? ==> r.info.limit == Pagination.OrDefault(limitParam, 10) && r.info.limit != 0
    ensures r.Listed? ==> r.info.skip == (r.info.page - 1) * r.info.limit >= 0
    ensures r.Listed? && Strings.Truthy(search) ==> r.info.total == matching
    ensures r.Listed? && !Strings.Truthy(search) ==> r.info.total == estimated
    ensures r.Listed? && r.info.limit > 0 ==> (r.info.pages - 1) * r.info.limit < r.info.total <= r.info.pages * r.info.limit
    ensures r.Listed? && r.info.limit < 0 ==> r.info.pages * r.info.limit <= r.info.total < (r.info.pages - 1) * r.info.limit
  {
    var total := if Strings.Truthy(search) then matching else estimated;
    Pagination.ListPage(pageParam, limitParam, total, storageFails)
  }

  /** An empty search term, or none, counts the whole collection: the
      answer is the one `getAllBookings` would give for that many
      documents. */
  lemma EmptySearchCountsAll(pageParam: Option<int>, limitParam: Option<int>, matching: nat, estimated: nat,
                             storageFails: bool)
    ensures AllUsersPage(pageParam, limitParam, Some(""), matching, estimated, storageFails)
         == AllUsersPage(pageParam, limitParam, None, matching, estimated, storageFails)
         == Pagination.ListPage(pageParam, limitParam, estimated, storageFails)
  {
  }

  /** The responses of `deleteUser`. */
  datatype DeleteReply = UserDeleted | UserNotFound | DeleteFailed

  function DeleteStatusCode(r: DeleteReply): int
  {
    match r
    case UserDeleted => 200
    case UserNotFound => 404
    case DeleteFailed => 500
  }

  datatype DeleteOutcome = DeleteOutcome(users: set<Ledger.UserId>, reply: DeleteReply)

  /** `deleteUser` on the set of user ids `users`. `fault` is an error the
      lookup throws (a malformed id, say). The user is removed when it
      exists; a call that removed nobody answers 404. */
  function DeleteUser(users: set<Ledger.UserId>, userId: Ledger.UserId, fault: Option<Ledger.Failure>): (r: DeleteOutcome)
    ensures r.reply == UserDeleted <==> fault.None? && userId in users
    ensures r.reply == UserNotFound <==> fault.None? && userId !in users
    ensures r.users == users - {userId} || r.users == users
    ensures r.reply != UserDeleted ==> r.users == users
    ensures userId !in r.users || fault.Some?
    ensures |r.users| == |users| - (if r.reply == UserDeleted then 1 else 0)
  {
    if fault.Some? then
      DeleteOutcome(users, DeleteFailed)
    else if userId !in users then
      DeleteOutcome(users, UserNotFound)
    else
      DeleteOutcome(users - {userId}, UserDeleted)
  }

  /** Deleting the same user twice: the second call finds nobody, answers
      404 and changes nothing. */
  lemma DeleteTwiceNotFound(users: set<Ledger.UserId>, userId: Ledger.UserId)
    ensures var first := DeleteUser(users, userId, None);
            var second := DeleteUser(first.users, userId, None);
            second.reply == UserNotFound && DeleteStatusCode(second.reply) == 404
            && second.users == first.users
  {
  }
}
