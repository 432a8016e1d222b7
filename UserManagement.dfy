/** The user-management page (frontend/src/features/UserManagementPage/index.tsx):
    the table's row numbers, the list request built from the query string,
    the debounced filter, and deleting the selected user. */
module UserManagement {
  import opened Common

  /** The "No." column: rows count on from the pages before. */
  function RowNumber(pageIndex: nat, pageSize: nat, rowIndex: nat): (n: int)
    ensures n >= 1
  {
    pageIndex * pageSize + rowIndex + 1
  }

  /** On a full table the numbers of page p (counted from 0) are exactly
      p * size + 1 .. (p + 1) * size, so no two rows of different pages
      share a number. */
  lemma RowNumbersOfPage(pageIndex: nat, pageSize: nat, rowIndex: nat)
    requires rowIndex < pageSize
    ensures pageIndex * pageSize + 1 <= RowNumber(pageIndex, pageSize, rowIndex) <= (pageIndex + 1) * pageSize
  {
  }

  lemma {:induction false} RowNumbersDistinct(p1: nat, r1: nat, p2: nat, r2: nat, pageSize: nat)
    requires r1 < pageSize && r2 < pageSize
    requires (p1, r1) != (p2, r2)
    ensures RowNumber(p1, pageSize, r1) != RowNumber(p2, pageSize, r2)
  {
    if p1 == p2 {
    } else if p1 < p2 {
      RowNumbersOfPage(p1, pageSize, r1);
      RowNumbersOfPage(p2, pageSize, r2);
      assert (p1 + 1) * pageSize <= p2 * pageSize by {
        MultiplyMonotone(p1 + 1, p2, pageSize);
      }
    } else {
      RowNumbersOfPage(p1, pageSize, r1);
      RowNumbersOfPage(p2, pageSize, r2);
      assert (p2 + 1) * pageSize <= p1 * pageSize by {
        MultiplyMonotone(p2 + 1, p1, pageSize);
      }
    }
  }

  lemma MultiplyMonotone(a: nat, b: nat, c: nat)
    requires a <= b
    ensures a * c <= b * c
  {
  }

  const DefaultPage := 1
  const DefaultPerPage := 10
  const DeleteError := "Failed to delete user. Please try again."
  const FetchError := "Failed to fetch users. Please try again."

  /** `UserListParams`: the filters only when they are not empty. */
  datatype ListParams = ListParams(page: int, perPage: int, name: Option<string>, email: Option<string>)

  class UsersPage {
    var page: int
    var perPage: int
    var name: string
    var email: string
    var error: Option<string>
    var deleteDialogOpen: bool
    var userToDelete: Option<int>
    var isDeleting: bool
    var deleted: seq<int>
    var listRequests: seq<ListParams>

    /** The query string's values, or page 1, 10 per page and no filters. */
    constructor (pageParam: Option<int>, perPageParam: Option<int>, nameParam: Option<string>, emailParam: Option<string>)
      ensures page == (if pageParam.Some? then pageParam.value else DefaultPage)
      ensures perPage == (if perPageParam.Some? then perPageParam.value else DefaultPerPage)
      ensures name == (if nameParam.Some? then nameParam.value else "")
      ensures email == (if emailParam.Some? then emailParam.value else "")
      ensures error.None? && !deleteDialogOpen && userToDelete.None? && !isDeleting
      ensures deleted == [] && listRequests == []
    {
      page := if pageParam.Some? then pageParam.value else DefaultPage;
      perPage := if perPageParam.Some? then perPageParam.value else DefaultPerPage;
      name := if nameParam.Some? then nameParam.value else "";
      email := if emailParam.Some? then emailParam.value else "";
      error := None;
      deleteDialogOpen := false;
      userToDelete := None;
      isDeleting := false;
      deleted := [];
      listRequests := [];
    }

    /** The parameters of `fetchUsers`. */
    function Params(): (p: ListParams)
      reads this
      ensures p.page == page && p.perPage == perPage
      ensures p.name.Some? <==> name != ""
      ensures p.email.Some? <==> email != ""
      ensures p.name.Some? ==> p.name.value == name
      ensures p.email.Some? ==> p.email.value == email
    {
      ListParams(page, perPage, if name != "" then Some(name) else None, if email != "" then Some(email) else None)
    }

    /** The debounced filter effect: both filters from the inputs, back to page 1. */
    method ApplyFilters(localName: string, localEmail: string)
      modifies this
      ensures name == localName && email == localEmail && page == 1 && perPage == old(perPage)
      ensures error == old(error) && deleteDialogOpen == old(deleteDialogOpen)
      ensures userToDelete == old(userToDelete) && isDeleting == old(isDeleting)
      ensures deleted == old(deleted) && listRequests == old(listRequests)
    {
      name := localName;
      email := localEmail;
      page := 1;
    }

    /** The trash button of a row: that user is selected and the dialog opens. */
    method AskDelete(id: int)
      modifies this
      ensures userToDelete == Some(id) && deleteDialogOpen
      ensures page == old(page) && perPage == old(perPage) && name == old(name) && email == old(email)
      ensures error == old(error) && isDeleting == old(isDeleting)
      ensures deleted == old(deleted) && listRequests == old(listRequests)
    {
      userToDelete := Some(id);
      deleteDialogOpen := true;
    }

    /** `fetchUsers`: one list request; the error is cleared, or set when the
        request fails. It never throws. */
    method FetchUsers(fails: bool)
      modifies this
      ensures listRequests == old(listRequests) + [old(Params())]
      ensures error == (if fails then Some(FetchError) else None)
      ensures page == old(page) && perPage == old(perPage) && name == old(name) && email == old(email)
      ensures deleteDialogOpen == old(deleteDialogOpen) && userToDelete == old(userToDelete)
      ensures isDeleting == old(isDeleting) && deleted == old(deleted)
    {
      listRequests := listRequests + [Params()];
      error := if fails then Some(FetchError) else None;
    }

    /** `handleDeleteUser`: nothing without a selected user. Otherwise the
        user is deleted and the list fetched again; since that fetch
        swallows its own failure, the dialog closes and the selection clears
        whenever the delete succeeds. A failed delete sets the error and
        keeps the dialog and the selection. */
    method HandleDeleteUser(deleteFails: bool, fetchFails: bool)
      modifies this
      ensures old(userToDelete).None? ==>
        && deleted == old(deleted) && listRequests == old(listRequests) && error == old(error)
        && deleteDialogOpen == old(deleteDialogOpen) && userToDelete == old(userToDelete)
      ensures old(userToDelete).Some? ==> deleted == old(deleted) + [old(userToDelete).value]
      ensures old(userToDelete).Some? && deleteFails ==>
        && error == Some(DeleteError) && listRequests == old(listRequests)
        && deleteDialogOpen == old(deleteDialogOpen) && userToDelete == old(userToDelete)
      ensures old(userToDelete).Some? && !deleteFails ==>
        && listRequests == old(listRequests) + [old(Params())]
        && error == (if fetchFails then Some(FetchError) else None)
        && !deleteDialogOpen && userToDelete.None?
      ensures old(userToDelete).Some? ==> !isDeleting
      ensures old(userToDelete).None? ==> isDeleting == old(isDeleting)
      ensures page == old(page) && perPage == old(perPage) && name == old(name) && email == old(email)
    {
      if userToDelete.None? {
        return;
      }
      isDeleting := true;
      deleted := deleted + [userToDelete.value];
      if deleteFails {
        error := Some(DeleteError);
      } else {
        FetchUsers(fetchFails);
        deleteDialogOpen := false;
        userToDelete := None;
      }
      isDeleting := false;
    }
  }
}
