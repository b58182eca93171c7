/**
 * The administrator (Admin.java): a User with operations over other users'
 * lists and accounts.
 */
module Admins {
  import opened JavaText
  import opened Sequences
  import opened Environment
  import opened Users
  import opened BankAccounts

  /** `new Admin(username, password, userID)`: a User built with role ADMIN, which the User constructor overwrites. */
  method NewAdmin(username: string, password: string, userID: Int32) returns (admin: User)
    ensures fresh(admin)
    ensures admin.username == username && admin.password == password && admin.userID == userID
    ensures admin.role == StandardRole
  {
    admin := new User(username, password, "ADMIN", userID);
  }

  /** `createUser(username, password, role, userID)`. */
  method CreateUser(username: string, password: string, role: string, userID: Int32) returns (user: User)
    ensures fresh(user)
    ensures user.username == username && user.password == password && user.userID == userID
    ensures user.role == StandardRole
  {
    user := new User(username, password, role, userID);
  }

  /** The users `removeUserById` keeps. */
  function OtherThan(targetUserID: Int32): User -> bool
  {
    (u: User) => u.userID != targetUserID
  }

  /** A caller's `List<User>`, changed in place. */
  class UserList {
    var users: seq<User>

    constructor (users: seq<User>)
      ensures this.users == users
    {
      this.users := users;
    }
  }

  /** `removeUserById(userList, targetUserID)`: `removeIf` on the user id. */
  method RemoveUserById(userList: UserList, targetUserID: Int32)
    modifies userList
    ensures userList.users == Filter(old(userList.users), OtherThan(targetUserID))
  {
    var users := userList.users;
    var kept: seq<User> := [];
    var i := 0;
    while i < |users|
      invariant 0 <= i <= |users|
      invariant kept == Filter(users[..i], OtherThan(targetUserID))
    {
      assert users[..i + 1][..i] == users[..i];
      if users[i].userID != targetUserID {
        kept := kept + [users[i]];
      }
      i := i + 1;
    }
    assert users[..i] == users;
    userList.users := kept;
  }

  /**
   * After removal no user with the target id is left, and every user with
   * another id is still there.
   */
  lemma RemovalIsExact(users: seq<User>, targetUserID: Int32)
    ensures forall u :: u in Filter(users, OtherThan(targetUserID)) <==> u in users && u.userID != targetUserID
  {
    forall u {
      FilterMembership(users, OtherThan(targetUserID), u);
    }
  }

  /** Users with other ids keep their relative order: removing from a longer list removes from each part. */
  lemma RemovalKeepsOrder(front: seq<User>, back: seq<User>, targetUserID: Int32)
    ensures Filter(front + back, OtherThan(targetUserID))
         == Filter(front, OtherThan(targetUserID)) + Filter(back, OtherThan(targetUserID))
  {
    FilterAppend(front, back, OtherThan(targetUserID));
  }

  /** `depositToUserAccount(account, amount)`: exactly `account.deposit(amount)`. */
  method DepositToUserAccount(rt: Runtime, now: string, account: BankAccount, amount: int) returns (escaped: bool)
    modifies account`balance, rt
    ensures Step(rt.Snapshot(), account.Value(), escaped) == DepositEffect(old(rt.Snapshot()), old(account.Value()), amount, now)
  {
    escaped := account.Deposit(rt, now, amount);
  }

  /** `withdrawFromUserAccount(account, amount)`: exactly `account.withdraw(amount)`. */
  method WithdrawFromUserAccount(rt: Runtime, now: string, account: BankAccount, amount: int) returns (escaped: bool)
    modifies account`balance, rt
    ensures Step(rt.Snapshot(), account.Value(), escaped) == WithdrawEffect(old(rt.Snapshot()), old(account.Value()), amount, now)
  {
    escaped := account.Withdraw(rt, now, amount);
  }
}
