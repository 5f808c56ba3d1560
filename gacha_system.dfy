/** The gacha page (`GachaSystem.tsx`): the client-side price and balance
    check, the guard against a second pull while one is in flight, the state
    a finished pull leaves, the buttons' disabled rule and the cost label.
    The request and the stats refresh are awaited outside the model: their
    outcomes are parameters of the step that completes a pull. */
module GachaPage {
  import opened Wrappers
  import opened Text
  import opened Entities
  import Gacha
  import opened Users

  /** `cost` in `performGacha`: any kind other than "single" is a ten pull. */
  function ClientCost(kind: string, useGems: bool): int
  {
    if kind == "single" then (if useGems then 1 else 100) else (if useGems then 9 else 900)
  }

  /** The client asks the price the server charges. */
  lemma ClientCostMatchesServer(kind: string, useGems: bool)
    ensures ClientCost(kind, useGems) == Gacha.PullCost(kind != "single", useGems)
  {
  }

  /** `currency`: the balance the pull would spend. */
  function Balance(stats: UserDto, useGems: bool): int
  {
    if useGems then stats.gems else stats.coins
  }

  /** With the server's balances on screen, the client refuses a pull
      exactly when the server would refuse it for lack of currency. */
  lemma ClientCheckAgrees(u: User, kind: string, useGems: bool)
    ensures Balance(ToUserDto(u), useGems) < ClientCost(kind, useGems) <==>
            Gacha.ValidateCurrency(u, Gacha.PullCost(kind != "single", useGems), useGems).Err?
  {
  }

  /** The four buttons of the page. */
  datatype Button = SingleCoins | SingleGems | TenCoins | TenGems

  function ButtonKind(b: Button): string
  {
    if b == SingleCoins || b == SingleGems then "single" else "ten"
  }

  function ButtonUsesGems(b: Button): bool
  {
    b == SingleGems || b == TenGems
  }

  /** The `disabled` expression of each button, with its own literal
      threshold. */
  predicate Disabled(b: Button, loading: bool, stats: UserDto)
  {
    match b
    case SingleCoins => loading || stats.coins < 100
    case SingleGems => loading || stats.gems < 1
    case TenCoins => loading || stats.coins < 900
    case TenGems => loading || stats.gems < 9
  }

  /** Each button is disabled exactly when a pull is in flight or the click
      would be refused for the price `performGacha` checks. */
  lemma DisabledIffRefused(b: Button, loading: bool, stats: UserDto)
    ensures Disabled(b, loading, stats) <==>
            loading || Balance(stats, ButtonUsesGems(b)) < ClientCost(ButtonKind(b), ButtonUsesGems(b))
  {
  }

  /** The cost line names gems exactly when `pullType` contains "GEM". */
  function CostUnit(pullType: string): string
  {
    if Contains(pullType, "GEM") then "gems" else "coins"
  }

  lemma GemAt(s: string, i: int)
    requires OccursAt("GEM", s, i)
    ensures s[i] == 'G' && s[i + 1] == 'E' && s[i + 2] == 'M'
  {
    assert s[i..i + 3][0] == s[i] && s[i..i + 3][1] == s[i + 1] && s[i..i + 3][2] == s[i + 2];
  }

  /** For every pull type the server reports, the label names the currency
      that was spent. */
  lemma CostUnitMatchesCurrency(tenPull: bool, useGems: bool)
    ensures CostUnit(Gacha.PullType(tenPull, useGems)) == (if useGems then "gems" else "coins")
  {
    var s := Gacha.PullType(tenPull, useGems);
    if useGems {
      var i := |s| - 3;
      assert s[i..i + 3] == "GEM";
      assert OccursAt("GEM", s, i);
    } else {
      forall i | 0 <= i <= |s| - 3 ensures !OccursAt("GEM", s, i) {
        if OccursAt("GEM", s, i) {
          GemAt(s, i);
        }
      }
    }
  }

  /** What `alert` shows. */
  datatype Alert = NotEnough(currency: string, cost: int) | PullFailed

  /** The POST `performGacha` sends. */
  datatype PullRequest = PullRequest(endpoint: string, userId: int, useGems: bool)

  class GachaScreen {
    /** The `user` prop's id: the pulls and the refresh are for this user,
        whatever profile the refresh brings back. */
    const userId: int
    var loading: bool
    var result: Option<Gacha.GachaResult>
    var showResult: bool
    var stats: UserDto
    var alerts: seq<Alert>

    constructor (user: UserDto)
      ensures !loading && result.None? && !showResult && stats == user && alerts == []
      ensures userId == user.id
    {
      userId := user.id;
      loading := false;
      result := None;
      showResult := false;
      stats := user;
      alerts := [];
    }

    /** The synchronous part of `performGacha`: nothing while a pull is in
        flight; an alert when the balance is short; otherwise the request,
        with `loading` set. */
    method StartPull(kind: string, useGems: bool) returns (request: Option<PullRequest>)
      modifies this`loading, this`alerts
      ensures old(loading) ==> request.None? && loading && alerts == old(alerts)
      ensures !old(loading) && Balance(stats, useGems) < ClientCost(kind, useGems) ==>
        request.None? && !loading &&
        alerts == old(alerts) + [NotEnough(if useGems then "gems" else "coins", ClientCost(kind, useGems))]
      ensures !old(loading) && Balance(stats, useGems) >= ClientCost(kind, useGems) ==>
        loading && alerts == old(alerts) &&
        request == Some(PullRequest(if kind == "single" then "single" else "ten", userId, useGems))
    {
      if loading {
        return None;
      }
      var cost := ClientCost(kind, useGems);
      if Balance(stats, useGems) < cost {
        alerts := alerts + [NotEnough(if useGems then "gems" else "coins", cost)];
        return None;
      }
      loading := true;
      request := Some(PullRequest(if kind == "single" then "single" else "ten", userId, useGems));
    }

    /** The rest of `performGacha` once the POST settles: on success the
        result is shown and the stats replaced by the refreshed profile
        (kept when the refresh fails); on failure an alert. `loading` is
        cleared either way. */
    method CompletePull(response: Result<Gacha.GachaResult>, refreshed: Option<UserDto>)
      requires loading
      modifies this`loading, this`result, this`showResult, this`stats, this`alerts
      ensures !loading
      ensures response.Ok? ==>
        result == Some(response.value) && showResult && stats == refreshed.GetOr(old(stats)) && alerts == old(alerts)
      ensures response.Err? ==>
        result == old(result) && showResult == old(showResult) && stats == old(stats) && alerts == old(alerts) + [PullFailed]
    {
      if response.Ok? {
        result := Some(response.value);
        showResult := true;
        if refreshed.Some? {
          stats := refreshed.value;
        }
      } else {
        alerts := alerts + [PullFailed];
      }
      loading := false;
    }
  }
}
