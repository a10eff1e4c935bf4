/** `POST /api/store/theme`: a one-time purchase of the theme for a fixed number of coins. */
module ThemeRoute {
  import opened Wrappers
  import opened UserModel
  import Db

  /** Price of the theme in coins. */
  const ThemeCost := 20

  /** The guard chain and the debit on one record, in the order the route checks them:
      already purchased first, then the balance. */
  function Purchase(u: User): (r: Result<User, ApiError>)
    ensures r.Success? <==> !u.themePurchased && u.coins >= ThemeCost
    ensures u.themePurchased ==> r == Failure(ApiError(400, "already purchased"))
    ensures !u.themePurchased && u.coins < ThemeCost ==> r == Failure(ApiError(400, "not enough coins"))
    ensures r.Success? ==> r.value == u.(coins := u.coins - ThemeCost, themePurchased := true) && r.value.coins >= 0
  {
    if u.themePurchased then Failure(ApiError(400, "already purchased"))
    else if u.coins < ThemeCost then Failure(ApiError(400, "not enough coins"))
    else Success(Apply(u, NoChange.(coins := Some(u.coins - ThemeCost), themePurchased := Some(true))))
  }

  /** The debit happens at most once: after a successful purchase every further
      purchase is refused and leaves the coins where they are. */
  lemma PurchaseAtMostOnce(u: User)
    requires Purchase(u).Success?
    ensures Purchase(Purchase(u).value) == Failure(ApiError(400, "already purchased"))
  {
  }

  method Post(db: Db.Store, email: Option<string>) returns (r: Result<PublicUser, ApiError>)
    requires db.Valid()
    modifies db
    ensures db.Valid()
    ensures Blank(email) ==> r == Failure(ApiError(400, "email required")) && db.users == old(db.users)
    ensures !Blank(email) && old(db.FindByEmail(email.value)).None? ==>
      r == Failure(ApiError(404, "user not found")) && db.users == old(db.users)
    ensures !Blank(email) && old(db.FindByEmail(email.value)).Some? ==>
      var u := old(db.FindByEmail(email.value)).value;
      match Purchase(u)
      case Failure(e) => r == Failure(e) && db.users == old(db.users)
      case Success(v) => r == Success(WithoutPassword(v)) && db.users == old(db.users)[u.id := v]
  {
    if Blank(email) {
      return Failure(ApiError(400, "email required"));
    }
    var found := db.FindByEmail(email.value);
    if found.None? {
      return Failure(ApiError(404, "user not found"));
    }
    var user := found.value;
    if user.themePurchased {
      return Failure(ApiError(400, "already purchased"));
    }
    var cost := ThemeCost;
    if user.coins < cost {
      return Failure(ApiError(400, "not enough coins"));
    }
    var updated := db.Update(user.id, NoChange.(coins := Some(user.coins - cost), themePurchased := Some(true)));
    r := Success(WithoutPassword(updated.value));
  }
}
