/** The navigation bar's active-item rule and its solved-problem counter. */
module Navbar {
  import opened Wrappers
  import UserSlice

  const Home := "/"
  const LeaderboardHref := "/leaderboard"
  const StoreHref := "/store"

  /** `isActive`: the home item only on "/" itself, any other item on every path that
      starts with its href. */
  function IsActive(pathname: string, href: string): (active: bool)
    ensures href == Home ==> (active <==> pathname == Home)
    ensures href != Home ==> (active <==> href <= pathname)
  {
    if href == Home then pathname == Home else href <= pathname
  }

  /** Every path below a section, and every path that merely starts with the same
      letters, activates that section: "/store/x" and "/storefront" both activate
      "/store". */
  lemma PrefixActivates(href: string, rest: string)
    requires href != Home
    ensures IsActive(href + rest, href)
  {
    assert (href + rest)[..|href|] == href;
  }

  lemma StorefrontActivatesStore()
    ensures IsActive("/storefront", StoreHref) && IsActive("/store/x", StoreHref)
  {
    PrefixActivates(StoreHref, "front");
    PrefixActivates(StoreHref, "/x");
  }

  /** On any path at most one of the three navigation items is active. */
  lemma AtMostOneActive(pathname: string)
    ensures !(IsActive(pathname, Home) && IsActive(pathname, LeaderboardHref))
    ensures !(IsActive(pathname, Home) && IsActive(pathname, StoreHref))
    ensures !(IsActive(pathname, LeaderboardHref) && IsActive(pathname, StoreHref))
  {
    if IsActive(pathname, LeaderboardHref) {
      assert pathname[1] == 'l';
    }
    if IsActive(pathname, StoreHref) {
      assert pathname[1] == 's';
    }
  }

  /** `user.completedProblems?.length ?? user.solved ?? 0` */
  function SolvedShown(user: UserSlice.ClientUser): (n: int)
    ensures user.completedProblems.Some? ==> n == |user.completedProblems.value|
    ensures user.completedProblems.None? && user.solved.Some? ==> n == user.solved.value
    ensures user.completedProblems.None? && user.solved.None? ==> n == 0
  {
    if user.completedProblems.Some? then |user.completedProblems.value|
    else user.solved.GetOr(0)
  }

  /** The counter follows the completed list whenever the user has one: `updateSolved`
      does not change what it shows. */
  lemma UpdateSolvedHiddenByList(user: UserSlice.ClientUser, solved: int)
    requires user.completedProblems.Some?
    ensures SolvedShown(UserSlice.Reduce(Some(user), UserSlice.UpdateSolved(solved)).value) == SolvedShown(user)
  {
  }
}
