/** `PATCH /api/user`: change only the optional fields present in the request. */
module UserRoute {
  import opened Wrappers
  import opened UserModel
  import Db

  /** A field left out of the request body is `None`; `leetcodeUsername` may also be
      present with the value `null`, which is `Some(None)`. */
  datatype PatchRequest = PatchRequest(
    email: Option<string>,
    leetcodeUsername: Option<Option<string>>,
    coins: Option<int>,
    themePurchased: Option<bool>)

  /** The `data` object built from the fields that are present. */
  function PatchData(req: PatchRequest): (data: UpdateData)
    ensures data.leetcodeUsername == req.leetcodeUsername
    ensures data.coins == req.coins && data.themePurchased == req.themePurchased
    ensures data.(leetcodeUsername := None, coins := None, themePurchased := None) == NoChange
  {
    NoChange.(leetcodeUsername := req.leetcodeUsername, coins := req.coins, themePurchased := req.themePurchased)
  }

  /** The record after the patch: each of the three fields takes the requested value
      when present and keeps its value otherwise; no other field changes. */
  function Patched(u: User, req: PatchRequest): (v: User)
    ensures req.leetcodeUsername.Some? ==> v.leetcodeUsername == req.leetcodeUsername.value
    ensures req.leetcodeUsername.None? ==> v.leetcodeUsername == u.leetcodeUsername
    ensures req.coins.Some? ==> v.coins == req.coins.value
    ensures req.coins.None? ==> v.coins == u.coins
    ensures req.themePurchased.Some? ==> v.themePurchased == req.themePurchased.value
    ensures req.themePurchased.None? ==> v.themePurchased == u.themePurchased
    ensures v == u.(leetcodeUsername := v.leetcodeUsername, coins := v.coins, themePurchased := v.themePurchased)
  {
    Apply(u, PatchData(req))
  }

  /** A request with none of the optional fields leaves the record unchanged. */
  lemma EmptyPatchIsIdentity(u: User, email: Option<string>)
    ensures Patched(u, PatchRequest(email, None, None, None)) == u
  {
  }

  /** Applying the same patch twice is the same as applying it once. */
  lemma PatchIdempotent(u: User, req: PatchRequest)
    ensures Patched(Patched(u, req), req) == Patched(u, req)
  {
  }

  method Patch(db: Db.Store, req: PatchRequest) returns (r: Result<PublicUser, ApiError>)
    requires db.Valid()
    modifies db
    ensures db.Valid()
    ensures Blank(req.email) ==> r == Failure(ApiError(400, "email required")) && db.users == old(db.users)
    ensures !Blank(req.email) && old(db.FindByEmail(req.email.value)).None? ==>
      r == Failure(ApiError(500, "Internal server error")) && db.users == old(db.users)
    ensures !Blank(req.email) && old(db.FindByEmail(req.email.value)).Some? ==>
      var u := old(db.FindByEmail(req.email.value)).value;
      r == Success(WithoutPassword(Patched(u, req))) && db.users == old(db.users)[u.id := Patched(u, req)]
  {
    if Blank(req.email) {
      return Failure(ApiError(400, "email required"));
    }
    var data := NoChange;
    if req.leetcodeUsername.Some? { data := data.(leetcodeUsername := req.leetcodeUsername); }
    if req.coins.Some? { data := data.(coins := req.coins); }
    if req.themePurchased.Some? { data := data.(themePurchased := req.themePurchased); }
    assert data == PatchData(req);

    // The update is addressed by email; with no such record it throws and the
    // route's catch block answers 500.
    var found := db.FindByEmail(req.email.value);
    if found.None? {
      return Failure(ApiError(500, "Internal server error"));
    }
    var updated := db.Update(found.value.id, data);
    r := Success(WithoutPassword(updated.value));
  }
}
