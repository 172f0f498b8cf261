/** The app's authentication slice: the profile kept between the Kakao
    login and sign-up, the two tokens, and whether the profile is complete.
    `Reduce` is the reducer as a function of the state; the class `AuthSlice`
    holds the state the reducers update in place. */
module AuthSlice {
  import opened Errors

  /** `KakaoProfile`, which the app also calls `UserInfo`. */
  datatype UserInfo = UserInfo(kakaoId: int, nickname: string, profileImageUrl: string)

  /** The token payload of a successful login. */
  datatype TokenResponse = TokenResponse(accessToken: string, refreshToken: string)

  /** `AuthState`; `None` stands for `null`. */
  datatype AuthState = AuthState(
    preSignupUserInfo: Option<UserInfo>,
    accessToken: Option<string>,
    refreshToken: Option<string>,
    profileComplete: bool)

  const InitialState: AuthState := AuthState(None, None, None, false)

  /** The six actions of the slice. */
  datatype AuthAction =
    | SetPreSignupUserInfo(info: UserInfo)
    | ClearPreSignupUserInfo
    | SetTokens(tokens: TokenResponse)
    | ClearTokens
    | SetProfileComplete(complete: bool)
    | ResetAuthState

  /** The slice's reducer. */
  function Reduce(s: AuthState, a: AuthAction): AuthState {
    match a
    case SetPreSignupUserInfo(info) => s.(preSignupUserInfo := Some(info))
    case ClearPreSignupUserInfo => s.(preSignupUserInfo := None)
    case SetTokens(t) => s.(accessToken := Some(t.accessToken), refreshToken := Some(t.refreshToken))
    case ClearTokens => s.(accessToken := None, refreshToken := None)
    case SetProfileComplete(b) => s.(profileComplete := b)
    case ResetAuthState => InitialState
  }

  /** The state after dispatching `actions` in order. */
  function ReduceAll(s: AuthState, actions: seq<AuthAction>): AuthState
    decreases |actions|
  {
    if actions == [] then s else ReduceAll(Reduce(s, actions[0]), actions[1..])
  }

  /** The part of the state each action may touch. */
  predicate TouchesTokens(a: AuthAction) {
    a.SetTokens? || a.ClearTokens? || a.ResetAuthState?
  }

  predicate TouchesUserInfo(a: AuthAction) {
    a.SetPreSignupUserInfo? || a.ClearPreSignupUserInfo? || a.ResetAuthState?
  }

  predicate TouchesProfile(a: AuthAction) {
    a.SetProfileComplete? || a.ResetAuthState?
  }

  /** Every action changes only its own part of the state: the tokens move
      only by `setTokens`, `clearTokens` and a reset, the pre-sign-up profile
      only by its setter, its clearer and a reset, and the completion flag
      only by its setter and a reset. */
  lemma ActionsKeepOtherFields(s: AuthState, a: AuthAction)
    ensures !TouchesTokens(a) ==>
      Reduce(s, a).accessToken == s.accessToken && Reduce(s, a).refreshToken == s.refreshToken
    ensures !TouchesUserInfo(a) ==> Reduce(s, a).preSignupUserInfo == s.preSignupUserInfo
    ensures !TouchesProfile(a) ==> Reduce(s, a).profileComplete == s.profileComplete
  {
  }

  /** `setTokens` stores both tokens of the payload. */
  lemma SetTokensStores(s: AuthState, t: TokenResponse)
    ensures Reduce(s, SetTokens(t)).accessToken == Some(t.accessToken)
    ensures Reduce(s, SetTokens(t)).refreshToken == Some(t.refreshToken)
    ensures Reduce(s, SetTokens(t)).preSignupUserInfo == s.preSignupUserInfo
    ensures Reduce(s, SetTokens(t)).profileComplete == s.profileComplete
  {
  }

  /** `clearTokens` empties both tokens, and a second one changes nothing. */
  lemma ClearTokensIdempotent(s: AuthState)
    ensures Reduce(s, ClearTokens).accessToken.None? && Reduce(s, ClearTokens).refreshToken.None?
    ensures Reduce(Reduce(s, ClearTokens), ClearTokens) == Reduce(s, ClearTokens)
  {
  }

  /** A reset leads to the initial state from any state, whatever came before. */
  lemma ResetFromAnywhere(s: AuthState, t: AuthState, before: seq<AuthAction>)
    ensures ReduceAll(s, before + [ResetAuthState]) == InitialState
    ensures Reduce(s, ResetAuthState) == Reduce(t, ResetAuthState)
  {
    ReduceAllSnoc(s, before, ResetAuthState);
  }

  lemma {:induction false} ReduceAllSnoc(s: AuthState, actions: seq<AuthAction>, a: AuthAction)
    ensures ReduceAll(s, actions + [a]) == Reduce(ReduceAll(s, actions), a)
    decreases |actions|
  {
    if actions == [] {
      assert [] + [a] == [a];
    } else {
      assert (actions + [a])[1..] == actions[1..] + [a];
      ReduceAllSnoc(Reduce(s, actions[0]), actions[1..], a);
    }
  }

  /** The tokens that the last token action of `actions` leaves, or those
      of `s` when there is none. */
  function TokensAfter(s: AuthState, actions: seq<AuthAction>): (Option<string>, Option<string>)
    decreases |actions|
  {
    if actions == [] then (s.accessToken, s.refreshToken)
    else
      var a := actions[|actions| - 1];
      match a
      case SetTokens(t) => (Some(t.accessToken), Some(t.refreshToken))
      case ClearTokens => (None, None)
      case ResetAuthState => (None, None)
      case _ => TokensAfter(s, actions[..|actions| - 1])
  }

  /** After any sequence of actions, the tokens are those of the last
      `setTokens`, `clearTokens` or reset: no other action disturbs them. */
  lemma {:induction false} TokensFollowLastTokenAction(s: AuthState, actions: seq<AuthAction>)
    ensures (ReduceAll(s, actions).accessToken, ReduceAll(s, actions).refreshToken) == TokensAfter(s, actions)
    decreases |actions|
  {
    if actions != [] {
      var init, a := actions[..|actions| - 1], actions[|actions| - 1];
      assert actions == init + [a];
      ReduceAllSnoc(s, init, a);
      TokensFollowLastTokenAction(s, init);
      ActionsKeepOtherFields(ReduceAll(s, init), a);
    }
  }

  /** The store: the slice's state, updated in place by its reducers. */
  class AuthSlice {
    var preSignupUserInfo: Option<UserInfo>
    var accessToken: Option<string>
    var refreshToken: Option<string>
    var profileComplete: bool

    function State(): AuthState
      reads this
    {
      AuthState(preSignupUserInfo, accessToken, refreshToken, profileComplete)
    }

    constructor ()
      ensures State() == InitialState
    {
      preSignupUserInfo, accessToken, refreshToken, profileComplete := None, None, None, false;
    }

    method SetPreSignupUserInfo(info: UserInfo)
      modifies this
      ensures State() == Reduce(old(State()), AuthAction.SetPreSignupUserInfo(info))
    {
      preSignupUserInfo := Some(info);
    }

    method ClearPreSignupUserInfo()
      modifies this
      ensures State() == Reduce(old(State()), AuthAction.ClearPreSignupUserInfo)
    {
      preSignupUserInfo := None;
    }

    method SetTokens(tokens: TokenResponse)
      modifies this
      ensures State() == Reduce(old(State()), AuthAction.SetTokens(tokens))
    {
      accessToken := Some(tokens.accessToken);
      refreshToken := Some(tokens.refreshToken);
    }

    method ClearTokens()
      modifies this
      ensures State() == Reduce(old(State()), AuthAction.ClearTokens)
    {
      accessToken := None;
      refreshToken := None;
    }

    method SetProfileComplete(complete: bool)
      modifies this
      ensures State() == Reduce(old(State()), AuthAction.SetProfileComplete(complete))
    {
      profileComplete := complete;
    }

    /** The reducer returns `initialState`, which the store takes as its new state. */
    method ResetAuthState()
      modifies this
      ensures State() == Reduce(old(State()), AuthAction.ResetAuthState)
    {
      preSignupUserInfo, accessToken, refreshToken, profileComplete :=
        InitialState.preSignupUserInfo, InitialState.accessToken,
        InitialState.refreshToken, InitialState.profileComplete;
    }
  }
}
