/** The aggregator: `team_goals` picks the home or away score of one game for a
    team, and `sum_goals` folds it over a list of games. */
module Goals {
  import opened Wrappers
  import opened Records

  /** What `team_goals` can raise: a missing field (KeyError) or a score that
      `int()` rejects (ValueError). */
  datatype GoalsError = KeyError(key: string) | ValueError(text: string)

  predicate IsDigit(c: char)
  {
    '0' <= c <= '9'
  }

  /** A non-empty run of decimal digits. */
  predicate IsDecimal(s: string)
  {
    s != [] && forall i :: 0 <= i < |s| ==> IsDigit(s[i])
  }

  function DigitValue(c: char): nat
    requires IsDigit(c)
  {
    c as int - '0' as int
  }

  /** The value of a run of decimal digits, most significant first. */
  function DigitsValue(s: string): nat
    requires forall i :: 0 <= i < |s| ==> IsDigit(s[i])
  {
    if s == [] then 0
    else DigitsValue(s[..|s| - 1]) * 10 + DigitValue(s[|s| - 1])
  }

  /** `int(s)` on decimal digit strings; None where it raises ValueError. */
  function ParseInt(s: string): (r: Option<nat>)
    ensures r.Some? <==> IsDecimal(s)
  {
    if IsDecimal(s) then Some(DigitsValue(s)) else None
  }

  /** `str(n)`: the decimal digits of `n`, without leading zeros. */
  function Decimal(n: nat): (s: string)
    ensures IsDecimal(s)
    ensures s[0] == '0' ==> n == 0
  {
    var digit := (n % 10 + '0' as int) as char;
    if n < 10 then [digit] else Decimal(n / 10) + [digit]
  }

  /** Parsing the decimal digits of a number gives the number back. */
  lemma {:induction false} ParseIntDecimal(n: nat)
    ensures ParseInt(Decimal(n)) == Some(n)
  {
    var s := Decimal(n);
    var digit := (n % 10 + '0' as int) as char;
    assert DigitValue(digit) == n % 10;
    if n < 10 {
      assert s == [digit] && s[..|s| - 1] == [];
      assert DigitsValue(s) == n;
    } else {
      ParseIntDecimal(n / 10);
      var prefix := Decimal(n / 10);
      assert s == prefix + [digit];
      assert s[..|s| - 1] == prefix;
      assert DigitsValue(s) == DigitsValue(prefix) * 10 + n % 10;
    }
  }

  /** `int(game[key])`. */
  function Score(game: Record, key: string): Result<nat, GoalsError>
  {
    if key !in game then Err(KeyError(key))
    else match ParseInt(game[key])
      case None => Err(ValueError(game[key]))
      case Some(n) => Ok(n)
  }

  /** `team_goals`: the home score when the team played at home, the away score
      otherwise. A missing `home_team` or chosen score raises KeyError, and a chosen
      score that is not a number raises ValueError. */
  function TeamGoals(game: Record, team: string): (r: Result<nat, GoalsError>)
    ensures "home_team" !in game ==> r == Err(KeyError("home_team"))
    ensures "home_team" in game ==>
      var key := if game["home_team"] == team then "home_score" else "away_score";
      && (key !in game ==> r == Err(KeyError(key)))
      && (key in game && !IsDecimal(game[key]) ==> r == Err(ValueError(game[key])))
      && (key in game && IsDecimal(game[key]) ==> r == Ok(DigitsValue(game[key])))
    ensures r.Ok? ==> exists key :: key in ["home_score", "away_score"] && key in game && ParseInt(game[key]) == Some(r.value)
  {
    if "home_team" !in game then Err(KeyError("home_team"))
    else if game["home_team"] == team then Score(game, "home_score")
    else Score(game, "away_score")
  }

  /** With scores written as `str(n)`, a team gets the home score exactly when it is
      the home team, and the away score otherwise. */
  lemma TeamGoalsDecimal(game: Record, team: string, home: nat, away: nat)
    requires "home_team" in game
    requires "home_score" in game && game["home_score"] == Decimal(home)
    requires "away_score" in game && game["away_score"] == Decimal(away)
    ensures TeamGoals(game, team) == Ok(if game["home_team"] == team then home else away)
  {
    ParseIntDecimal(home);
    ParseIntDecimal(away);
  }

  /** One step of the `reduce`: `res + team_goals(game, team_name)`. */
  function AddGoals(acc: Result<nat, GoalsError>, game: Record, team: string): Result<nat, GoalsError>
  {
    match acc
    case Err(e) => Err(e)
    case Ok(total) =>
      match TeamGoals(game, team)
      case Err(e) => Err(e)
      case Ok(goals) => Ok(total + goals)
  }

  /** `reduce` from the accumulator `acc` over `games`, left to right. */
  function SumFrom(games: seq<Record>, team: string, acc: Result<nat, GoalsError>): Result<nat, GoalsError>
  {
    if games == [] then acc else SumFrom(games[1..], team, AddGoals(acc, games[0], team))
  }

  /** `sum_goals`: `reduce(..., games, 0)`. */
  function SumGoals(games: seq<Record>, team: string): Result<nat, GoalsError>
  {
    SumFrom(games, team, Ok(0))
  }

  /** Adding two partial sums: the first error wins. */
  function Plus(a: Result<nat, GoalsError>, b: Result<nat, GoalsError>): Result<nat, GoalsError>
  {
    match a
    case Err(e) => Err(e)
    case Ok(x) =>
      match b
      case Err(e) => Err(e)
      case Ok(y) => Ok(x + y)
  }

  /** Starting the fold from `acc` is adding `acc` to the fold from 0. */
  lemma {:induction false} SumFromShift(games: seq<Record>, team: string, acc: Result<nat, GoalsError>)
    ensures SumFrom(games, team, acc) == Plus(acc, SumGoals(games, team))
  {
    if games != [] {
      var g := games[0];
      SumFromShift(games[1..], team, AddGoals(acc, g, team));
      SumFromShift(games[1..], team, AddGoals(Ok(0), g, team));
    }
  }

  /** The sum of a concatenation is the sum of the sums, the first error raised
      winning. */
  lemma SumGoalsAppend(a: seq<Record>, b: seq<Record>, team: string)
    ensures SumGoals(a + b, team) == Plus(SumGoals(a, team), SumGoals(b, team))
  {
    SumFromAppend(a, b, team, Ok(0));
    SumFromShift(b, team, SumGoals(a, team));
  }

  /** No games sum to 0, and one game sums to its own goals. */
  lemma SumGoalsSingle(game: Record, team: string)
    ensures SumGoals([], team) == Ok(0)
    ensures SumGoals([game], team) == TeamGoals(game, team)
  {
    var one := [game];
    assert one[1..] == [] && one[0] == game;
    assert SumFrom(one, team, Ok(0)) == SumFrom([], team, AddGoals(Ok(0), game, team));
  }

  lemma {:induction false} SumFromAppend(a: seq<Record>, b: seq<Record>, team: string, acc: Result<nat, GoalsError>)
    ensures SumFrom(a + b, team, acc) == SumFrom(b, team, SumFrom(a, team, acc))
  {
    if a == [] {
      assert a + b == b;
    } else {
      assert (a + b)[0] == a[0] && (a + b)[1..] == a[1..] + b;
      SumFromAppend(a[1..], b, team, AddGoals(acc, a[0], team));
    }
  }
}
