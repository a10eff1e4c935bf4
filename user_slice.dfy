/** The client-side user store: the state is the logged-in user or `null`, restored at
    start-up from the cached copy, and changed by five reducers. */
module UserSlice {
  import opened Wrappers

  /** The client's user. The fields are those of the `User` interface; the cached copy
      is a server reply, so it may also carry the completed-problem list, and `solved`
      may be missing from it. */
  datatype ClientUser = ClientUser(
    id: Option<string>,
    email: string,
    name: Option<string>,
    coins: int,
    solved: Option<int>,
    streak: int,
    themePurchased: bool,
    leetcodeUsername: Option<string>,
    completedProblems: Option<seq<string>>)

  /** What start-up finds: no `window` (server-side rendering), no cached value (absent
      or empty), a cached value that does not parse, the cached text `"null"` (what the
      store writes after a logout, which parses to `null`), or a parsed user. */
  datatype Cache = NoWindow | NotCached | Unparseable | CachedNull | Cached(user: ClientUser)

  /** `loadUser` */
  function LoadUser(cache: Cache): (state: Option<ClientUser>)
    ensures state.Some? <==> cache.Cached?
    ensures state.Some? ==> state.value == cache.user
  {
    match cache
    case Cached(u) => Some(u)
    case _ => None
  }

  datatype Action =
    | SetUser(user: ClientUser)
    | UpdateCoins(coins: int)
    | UpdateSolved(solved: int)
    | UpdateThemePurchased(themePurchased: bool)
    | Logout

  /** The slice's reducer: the state after `action`. `setUser` replaces the state and
      `logout` clears it; each `update*` sets its one field of a present user and leaves
      a null state null. */
  function Reduce(state: Option<ClientUser>, action: Action): (next: Option<ClientUser>)
    ensures action.SetUser? ==> next == Some(action.user)
    ensures action.Logout? ==> next == None
    ensures !action.SetUser? && !action.Logout? ==> (next.Some? <==> state.Some?)
    ensures action.UpdateCoins? && next.Some? ==>
      next.value.coins == action.coins && next.value.(coins := state.value.coins) == state.value
    ensures action.UpdateSolved? && next.Some? ==>
      next.value.solved == Some(action.solved) && next.value.(solved := state.value.solved) == state.value
    ensures action.UpdateThemePurchased? && next.Some? ==>
      next.value.themePurchased == action.themePurchased
      && next.value.(themePurchased := state.value.themePurchased) == state.value
  {
    match action
    case SetUser(u) => Some(u)
    case Logout => None
    case UpdateCoins(n) => if state.Some? then Some(state.value.(coins := n)) else None
    case UpdateSolved(n) => if state.Some? then Some(state.value.(solved := Some(n))) else None
    case UpdateThemePurchased(b) => if state.Some? then Some(state.value.(themePurchased := b)) else None
  }

  /** The state after a sequence of actions. */
  function ReduceAll(state: Option<ClientUser>, actions: seq<Action>): Option<ClientUser>
    decreases |actions|
  {
    if actions == [] then state else ReduceAll(Reduce(state, actions[0]), actions[1..])
  }

  /** After `logout`, every update leaves the state null until the next `setUser`. */
  lemma {:induction false} LoggedOutStaysOut(actions: seq<Action>)
    requires forall i :: 0 <= i < |actions| ==> !actions[i].SetUser?
    ensures ReduceAll(None, actions) == None
  {
    if actions != [] {
      LoggedOutStaysOut(actions[1..]);
    }
  }

  /** Updates of different fields commute, and of the same field the last one wins. */
  lemma UpdatesCommute(state: Option<ClientUser>, c: int, s: int, t: bool, c': int)
    ensures Reduce(Reduce(state, UpdateCoins(c)), UpdateSolved(s)) == Reduce(Reduce(state, UpdateSolved(s)), UpdateCoins(c))
    ensures Reduce(Reduce(state, UpdateCoins(c)), UpdateThemePurchased(t))
         == Reduce(Reduce(state, UpdateThemePurchased(t)), UpdateCoins(c))
    ensures Reduce(Reduce(state, UpdateCoins(c)), UpdateCoins(c')) == Reduce(state, UpdateCoins(c'))
  {
  }

  /** The store holding the slice's state. */
  class Store {
    var state: Option<ClientUser>

    /** `initialState: loadUser()` */
    constructor (cache: Cache)
      ensures state == LoadUser(cache)
    {
      state := LoadUser(cache);
    }

    method SetUser(user: ClientUser)
      modifies this
      ensures state == Reduce(old(state), Action.SetUser(user))
    {
      state := Some(user);
    }

    /** `if (state) state.coins = action.payload` */
    method UpdateCoins(coins: int)
      modifies this
      ensures state == Reduce(old(state), Action.UpdateCoins(coins))
    {
      if state.Some? {
        state := Some(state.value.(coins := coins));
      }
    }

    method UpdateSolved(solved: int)
      modifies this
      ensures state == Reduce(old(state), Action.UpdateSolved(solved))
    {
      if state.Some? {
        state := Some(state.value.(solved := Some(solved)));
      }
    }

    method UpdateThemePurchased(themePurchased: bool)
      modifies this
      ensures state == Reduce(old(state), Action.UpdateThemePurchased(themePurchased))
    {
      if state.Some? {
        state := Some(state.value.(themePurchased := themePurchased));
      }
    }

    method Logout()
      modifies this
      ensures state == Reduce(old(state), Action.Logout)
    {
      state := None;
    }
  }
}
