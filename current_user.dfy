/**
 * CurrentUserManager: the process-wide cell holding the signed-in user.
 * The static field becomes the field of one shared object that the view
 * models and screens are handed.
 */
module CurrentUser {
  import opened Wrappers
  import opened Entities

  class CurrentUserManager {
    /** `None` stands for the Java field holding null. */
    var currentUser: Option<User>

    constructor ()
      ensures currentUser == None
    {
      currentUser := None;
    }

    /** `setCurrentUser(user)`: overwrites whatever user was set before. */
    method SetCurrentUser(user: Option<User>)
      modifies this
      ensures GetCurrentUser() == user
      ensures GetCurrentUserId() == if user.Some? then Some(user.value.userId) else None
    {
      currentUser := user;
    }

    function GetCurrentUser(): Option<User>
      reads this
    {
      currentUser
    }

    /** The current user's id, or null when nobody is signed in. */
    function GetCurrentUserId(): (r: Option<string>)
      reads this
      ensures r.None? <==> currentUser.None?
      ensures r.Some? ==> r.value == currentUser.value.userId
    {
      match currentUser
      case Some(u) => Some(u.userId)
      case None => None
    }
  }
}
