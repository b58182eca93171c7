/**
 * A login (User.java): name, password, role and numeric id. Only the
 * password can change after construction.
 */
module Users {
  import opened JavaText

  /** The role every constructed user gets, whatever role was asked for. */
  const StandardRole: string := "STANDARD USER"

  class User {
    const username: string
    var password: string
    const role: string
    const userID: Int32

    /** `new User(username, password, role, userID)`: the role argument is ignored. */
    constructor (username: string, password: string, role: string, userID: Int32)
      ensures this.username == username && this.password == password && this.userID == userID
      ensures this.role == StandardRole
    {
      this.username := username;
      this.password := password;
      this.role := StandardRole;
      this.userID := userID;
    }

    /**
     * `setPassword(newPassword)`: an unchanged password is refused with a
     * message and kept; any other replaces it. Either way the password
     * afterwards is the one passed in.
     */
    method SetPassword(newPassword: string)
      modifies this`password
      ensures newPassword == old(password) ==> password == old(password)
      ensures password == newPassword
    {
      if newPassword == password {
        // the source only prints a message here
      } else {
        password := newPassword;
      }
    }
  }

  /** `User.newUser(...)`: the same as the constructor. */
  method NewUser(username: string, password: string, role: string, userID: Int32) returns (user: User)
    ensures fresh(user)
    ensures user.username == username && user.password == password && user.userID == userID
    ensures user.role == StandardRole
  {
    user := new User(username, password, role, userID);
  }
}
