/** Worked examples: a header line and a data line parsed into a record; the two
    chained queries of the program's entry point, and one further query, run over
    two games; and keys that compile or are rejected. */
module Scenarios {
  import opened Wrappers
  import opened Strings
  import opened Comparators
  import opened Compiler
  import opened Query
  import opened Records
  import opened Goals
  import opened Seqs

  const ITALY_FRANCE: Record :=
    map["home_team" := "Italy", "away_team" := "France", "home_score" := "2", "away_score" := "1",
        "tournament" := "FIFA World Cup"]
  const FRANCE_ITALY: Record :=
    map["home_team" := "France", "away_team" := "Italy", "home_score" := "0", "away_score" := "3",
        "tournament" := "Friendly"]

  const HEADER := "home_team" + "," + "away_team" + "," + "home_score" + "," + "away_score" + ","
    + "tournament" + "\n"
  const COLUMNS := ["home_team", "away_team", "home_score", "away_score", "tournament"]
  const LINE := "Italy" + "," + "France" + "," + "2" + "," + "1" + "," + "FIFA World Cup" + "\n"
  const CELLS := ["Italy", "France", "2", "1", "FIFA World Cup"]

  /** The header line is the column names joined with `,`, then a newline. */
  lemma HeaderText()
    ensures HEADER == Join(COLUMNS, ",") + "\n"
  {
    var c := COLUMNS;
    assert Join(c[4..], ",") == "tournament";
    JoinCons(c[3], c[4..], ",");
    assert c[3..] == [c[3]] + c[4..];
    JoinCons(c[2], c[3..], ",");
    assert c[2..] == [c[2]] + c[3..];
    JoinCons(c[1], c[2..], ",");
    assert c[1..] == [c[1]] + c[2..];
    JoinCons(c[0], c[1..], ",");
    assert c == [c[0]] + c[1..];
  }

  /** No column name holds a comma. */
  lemma ColumnsCommaFree()
    ensures forall cell :: cell in COLUMNS ==> ',' !in cell
  {
  }

  /** The header line splits into the column names. */
  lemma HeaderColumns()
    ensures RowSplitter(HEADER) == COLUMNS
  {
    HeaderText();
    ColumnsCommaFree();
    RowSplitterJoin(COLUMNS, '\n');
  }

  /** The data line is the cells joined with `,`, then a newline. */
  lemma LineText()
    ensures LINE == Join(CELLS, ",") + "\n"
  {
    var c := CELLS;
    assert Join(c[4..], ",") == "FIFA World Cup";
    JoinCons(c[3], c[4..], ",");
    assert c[3..] == [c[3]] + c[4..];
    JoinCons(c[2], c[3..], ",");
    assert c[2..] == [c[2]] + c[3..];
    JoinCons(c[1], c[2..], ",");
    assert c[1..] == [c[1]] + c[2..];
    JoinCons(c[0], c[1..], ",");
    assert c == [c[0]] + c[1..];
  }

  /** No cell of the data line holds a comma. */
  lemma CellsCommaFree()
    ensures forall cell :: cell in CELLS ==> ',' !in cell
  {
  }

  /** The data line splits into its cells. */
  lemma LineCells()
    ensures RowSplitter(LINE) == CELLS
  {
    LineText();
    CellsCommaFree();
    RowSplitterJoin(CELLS, '\n');
  }

  /** Zipping five columns with five cells inserts them in order. */
  lemma ZipFive(c: seq<string>, v: seq<string>)
    requires |c| == 5 && |v| == 5
    ensures Zip(c, v) == map[c[0] := v[0], c[1] := v[1], c[2] := v[2], c[3] := v[3], c[4] := v[4]]
  {
    assert Zip(c[..0], v[..0]) == map[];
    ZipStep(c, v, 0);
    ZipStep(c, v, 1);
    ZipStep(c, v, 2);
    ZipStep(c, v, 3);
    ZipStep(c, v, 4);
    assert c[..5] == c && v[..5] == v;
  }

  /** Zipping the column names with the cells gives the Italy-France game. */
  lemma ZipGame()
    ensures Zip(COLUMNS, CELLS) == ITALY_FRANCE
  {
    ZipFive(COLUMNS, CELLS);
  }

  /** A file holding the header and the one data line yields the Italy-France game. */
  lemma HeaderAndLine()
    ensures RowSplitter(HEADER) == COLUMNS && RowSplitter(LINE) == CELLS
    ensures Zip(RowSplitter(HEADER), RowSplitter(LINE)) == ITALY_FRANCE
  {
    HeaderColumns();
    LineCells();
    ZipGame();
  }

  lemma NoSeparatorIn(field: string)
    requires forall i :: 0 <= i < |field| ==> field[i] != '_' || i + 1 == |field| || field[i + 1] != '_'
    ensures !Contains(field, SEPARATOR)
  {
    forall j | 0 <= j <= |field| - 2 ensures !OccursAt(field, SEPARATOR, j) {
      assert field[j..j + 2][0] == field[j] && field[j..j + 2][1] == field[j + 1];
    }
  }

  /** `f__eq` compiles to equality on `f` when `f` is free of `__` and does not end in `_`. */
  lemma EqKey(field: string, key: string)
    requires forall i :: 0 <= i < |field| ==> field[i] != '_' || i + 1 == |field| || field[i + 1] != '_'
    requires field != [] && field[|field| - 1] != '_'
    requires key == field + "__eq"
    ensures ParseKey(key) == Ok((Eq, field))
  {
    NoSeparatorIn(field);
    ParseKeyRoundTrip(field, Eq);
    assert field + SEPARATOR + Name(Eq) == key;
  }

  /** `home_team__eq` compiles to equality on `home_team`. */
  lemma HomeTeamKey()
    ensures ParseKey("home_team__eq") == Ok((Eq, "home_team"))
  {
    EqKey("home_team", "home_team__eq");
  }

  /** `away_team__eq` compiles to equality on `away_team`. */
  lemma AwayTeamKey()
    ensures ParseKey("away_team__eq") == Ok((Eq, "away_team"))
  {
    EqKey("away_team", "away_team__eq");
  }

  const HOME_ITALY: Triple := Triple(Eq, "home_team", "Italy")
  const AWAY_ITALY: Triple := Triple(Eq, "away_team", "Italy")

  /** Compiling one key that parses. */
  lemma CompileOne(key: string, value: string, op: Comparator, field: string)
    requires ParseKey(key) == Ok((op, field))
    ensures Compile([(key, value)]) == Ok([Triple(op, field, value)])
  {
    var kwargs := [(key, value)];
    assert kwargs[0] == (key, value) && kwargs[1..] == [];
    assert Compile(kwargs[1..]) == Ok([]);
    assert [Triple(op, field, value)] + [] == [Triple(op, field, value)];
  }

  /** Compiling two keys that parse. */
  lemma CompileTwo(first: (string, string), second: (string, string), t: Triple, u: Triple)
    requires ParseKey(first.0) == Ok((t.op, t.field)) && t.target == first.1
    requires ParseKey(second.0) == Ok((u.op, u.field)) && u.target == second.1
    ensures Compile([first, second]) == Ok([t, u])
  {
    var kwargs := [first, second];
    CompileOne(second.0, second.1, u.op, u.field);
    assert kwargs[0] == first && kwargs[1..] == [second];
    assert [t] + [u] == [t, u];
  }

  /** Without a `mode` key the mode is `'or'` and the one key compiles to one triple. */
  lemma HomePlan()
    ensures Plan([("home_team__eq", "Italy")]) == Ok(("or", [HOME_ITALY]))
  {
    var kwargs := [("home_team__eq", "Italy")];
    HomeTeamKey();
    CompileOne("home_team__eq", "Italy", Eq, "home_team");
    assert Lookup(kwargs, "mode") == None by {
      assert kwargs[0].0 != "mode" && kwargs[1..] == [];
    }
    PopModeSpec(kwargs);
  }

  /** `selector` over a single triple. */
  lemma EvaluateOne(el: Record, mode: string, t: Triple, b: bool)
    requires Test(el, t) == Some(b)
    ensures Evaluate(el, mode, [t]) == Ok(Combine(mode, b, mode != "or"))
  {
    var ts := [t];
    assert ts[0] == t && ts[1..] == [];
    assert Fold(el, mode, ts[1..], Combine(mode, b, mode != "or")) == Ok(Combine(mode, b, mode != "or"));
    assert Fold(el, mode, ts, mode != "or") == Fold(el, mode, ts[1..], Combine(mode, b, mode != "or"));
  }

  /** The filter over two records that both evaluate. */
  lemma FilterTwo(x: Record, y: Record, mode: string, ts: seq<Triple>, keepX: bool, keepY: bool)
    requires Evaluate(x, mode, ts) == Ok(keepX) && Evaluate(y, mode, ts) == Ok(keepY)
    ensures Filter([x, y], mode, ts) == Ok((if keepX then [x] else []) + (if keepY then [y] else []))
  {
    var records := [x, y];
    var tail := [y];
    assert records[0] == x && records[1..] == tail && tail[0] == y && tail[1..] == [];
    assert Filter(tail[1..], mode, ts) == Ok([]);
    assert Filter(tail, mode, ts) == Prepend(if keepY then [y] else [], Ok([]));
    assert (if keepY then [y] else []) + [] == (if keepY then [y] else []);
    assert Filter(records, mode, ts) == Prepend(if keepX then [x] else [], Filter(tail, mode, ts));
  }

  lemma HomeFilter()
    ensures Filter([ITALY_FRANCE, FRANCE_ITALY], "or", [HOME_ITALY]) == Ok([ITALY_FRANCE])
  {
    assert Test(ITALY_FRANCE, HOME_ITALY) == Some(true) by {
      assert Get(ITALY_FRANCE, "home_team") == Some("Italy");
    }
    assert Test(FRANCE_ITALY, HOME_ITALY) == Some(false) by {
      assert Get(FRANCE_ITALY, "home_team") == Some("France");
    }
    EvaluateOne(ITALY_FRANCE, "or", HOME_ITALY, true);
    EvaluateOne(FRANCE_ITALY, "or", HOME_ITALY, false);
    FilterTwo(ITALY_FRANCE, FRANCE_ITALY, "or", [HOME_ITALY], true, false);
    assert [ITALY_FRANCE] + [] == [ITALY_FRANCE];
  }

  /** `home_team__eq="Italy"` (mode `'or'` by default) keeps only the game Italy
      played at home, and Italy scored 2 in it. */
  lemma HomeGamesOnly()
    ensures Selection([ITALY_FRANCE, FRANCE_ITALY], [("home_team__eq", "Italy")]) == Ok([ITALY_FRANCE])
    ensures SumGoals([ITALY_FRANCE], "Italy") == Ok(2)
  {
    HomePlan();
    HomeFilter();
    HomeGoals();
  }

  lemma HomeGoals()
    ensures SumGoals([ITALY_FRANCE], "Italy") == Ok(2)
  {
    SumGoalsSingle(ITALY_FRANCE, "Italy");
    assert Decimal(2) == "2" && Decimal(1) == "1";
    TeamGoalsDecimal(ITALY_FRANCE, "Italy", 2, 1);
  }

  /** An explicit `mode` key is removed before compiling; the two team keys compile
      in order. */
  lemma EitherPlan()
    ensures Plan([("mode", "or"), ("home_team__eq", "Italy"), ("away_team__eq", "Italy")])
            == Ok(("or", [HOME_ITALY, AWAY_ITALY]))
  {
    var kwargs := [("mode", "or"), ("home_team__eq", "Italy"), ("away_team__eq", "Italy")];
    var rest := [("home_team__eq", "Italy"), ("away_team__eq", "Italy")];
    assert Lookup(kwargs, "mode") == Some("or");
    assert Keep(kwargs, OtherKey("mode")) == rest by {
      assert kwargs[0].0 == "mode" && kwargs[1..] == rest;
      KeepAll(rest, OtherKey("mode"));
    }
    HomeTeamKey();
    AwayTeamKey();
    CompileTwo(rest[0], rest[1], HOME_ITALY, AWAY_ITALY);
  }

  lemma EitherFilter()
    ensures Filter([ITALY_FRANCE, FRANCE_ITALY], "or", [HOME_ITALY, AWAY_ITALY])
            == Ok([ITALY_FRANCE, FRANCE_ITALY])
  {
    var ts := [HOME_ITALY, AWAY_ITALY];
    assert Test(ITALY_FRANCE, HOME_ITALY) == Some(true) by {
      assert Get(ITALY_FRANCE, "home_team") == Some("Italy");
    }
    assert Test(ITALY_FRANCE, AWAY_ITALY) == Some(false) by {
      assert Get(ITALY_FRANCE, "away_team") == Some("France");
    }
    assert Test(FRANCE_ITALY, HOME_ITALY) == Some(false) by {
      assert Get(FRANCE_ITALY, "home_team") == Some("France");
    }
    assert Test(FRANCE_ITALY, AWAY_ITALY) == Some(true) by {
      assert Get(FRANCE_ITALY, "away_team") == Some("Italy");
    }
    EvaluateSpec(ITALY_FRANCE, "or", ts);
    EvaluateSpec(FRANCE_ITALY, "or", ts);
    assert ts[0] == HOME_ITALY && ts[1] == AWAY_ITALY;
    assert forall t :: t in ts ==> t == HOME_ITALY || t == AWAY_ITALY;
    assert Holds(ITALY_FRANCE, ts[0]) && Holds(FRANCE_ITALY, ts[1]);
    assert Evaluate(ITALY_FRANCE, "or", ts) == Ok(true);
    assert Evaluate(FRANCE_ITALY, "or", ts) == Ok(true);
    FilterTwo(ITALY_FRANCE, FRANCE_ITALY, "or", ts, true, true);
    assert [ITALY_FRANCE] + [FRANCE_ITALY] == [ITALY_FRANCE, FRANCE_ITALY];
  }

  lemma AwayGoals()
    ensures SumGoals([FRANCE_ITALY], "Italy") == Ok(3)
  {
    SumGoalsSingle(FRANCE_ITALY, "Italy");
    assert Decimal(0) == "0" && Decimal(3) == "3";
    TeamGoalsDecimal(FRANCE_ITALY, "Italy", 0, 3);
  }

  lemma EitherGoals()
    ensures SumGoals([ITALY_FRANCE, FRANCE_ITALY], "Italy") == Ok(5)
  {
    HomeGoals();
    AwayGoals();
    SumGoalsAppend([ITALY_FRANCE], [FRANCE_ITALY], "Italy");
    assert [ITALY_FRANCE] + [FRANCE_ITALY] == [ITALY_FRANCE, FRANCE_ITALY];
  }

  /** `mode="or", home_team__eq="Italy", away_team__eq="Italy"` keeps both games,
      and Italy scored 2 + 3 = 5 in them. */
  lemma EitherSide()
    ensures Selection([ITALY_FRANCE, FRANCE_ITALY],
              [("mode", "or"), ("home_team__eq", "Italy"), ("away_team__eq", "Italy")])
            == Ok([ITALY_FRANCE, FRANCE_ITALY])
    ensures SumGoals([ITALY_FRANCE, FRANCE_ITALY], "Italy") == Ok(5)
  {
    EitherPlan();
    EitherFilter();
    EitherGoals();
  }

  const WORLD_CUP: Triple := Triple(Eq, "tournament", "FIFA World Cup")

  /** `tournament__eq` compiles to equality on `tournament`. */
  lemma TournamentKey()
    ensures ParseKey("tournament__eq") == Ok((Eq, "tournament"))
  {
    EqKey("tournament", "tournament__eq");
  }

  /** The first query of the entry point compiles to one triple under `'or'`. */
  lemma TournamentPlan()
    ensures Plan([("tournament__eq", "FIFA World Cup")]) == Ok(("or", [WORLD_CUP]))
  {
    var kwargs := [("tournament__eq", "FIFA World Cup")];
    TournamentKey();
    CompileOne("tournament__eq", "FIFA World Cup", Eq, "tournament");
    assert Lookup(kwargs, "mode") == None by {
      assert kwargs[0].0 != "mode" && kwargs[1..] == [];
    }
    PopModeSpec(kwargs);
  }

  lemma TournamentFilter()
    ensures Filter([ITALY_FRANCE, FRANCE_ITALY], "or", [WORLD_CUP]) == Ok([ITALY_FRANCE])
  {
    assert Test(ITALY_FRANCE, WORLD_CUP) == Some(true) by {
      assert Get(ITALY_FRANCE, "tournament") == Some("FIFA World Cup");
    }
    assert Test(FRANCE_ITALY, WORLD_CUP) == Some(false) by {
      assert Get(FRANCE_ITALY, "tournament") == Some("Friendly");
    }
    EvaluateOne(ITALY_FRANCE, "or", WORLD_CUP, true);
    EvaluateOne(FRANCE_ITALY, "or", WORLD_CUP, false);
    FilterTwo(ITALY_FRANCE, FRANCE_ITALY, "or", [WORLD_CUP], true, false);
    assert [ITALY_FRANCE] + [] == [ITALY_FRANCE];
  }

  /** The filter over one record that evaluates. */
  lemma FilterOne(x: Record, mode: string, ts: seq<Triple>, keep: bool)
    requires Evaluate(x, mode, ts) == Ok(keep)
    ensures Filter([x], mode, ts) == Ok(if keep then [x] else [])
  {
    var records := [x];
    assert records[0] == x && records[1..] == [];
    assert Filter(records[1..], mode, ts) == Ok([]);
    assert (if keep then [x] else []) + [] == (if keep then [x] else []);
  }

  /** The team query keeps the World Cup game, where Italy played at home. */
  lemma TeamFilter()
    ensures Filter([ITALY_FRANCE], "or", [HOME_ITALY, AWAY_ITALY]) == Ok([ITALY_FRANCE])
  {
    var ts := [HOME_ITALY, AWAY_ITALY];
    assert Test(ITALY_FRANCE, HOME_ITALY) == Some(true) by {
      assert Get(ITALY_FRANCE, "home_team") == Some("Italy");
    }
    assert Test(ITALY_FRANCE, AWAY_ITALY) == Some(false) by {
      assert Get(ITALY_FRANCE, "away_team") == Some("France");
    }
    EvaluateSpec(ITALY_FRANCE, "or", ts);
    assert forall t :: t in ts ==> t == HOME_ITALY || t == AWAY_ITALY;
    assert Holds(ITALY_FRANCE, ts[0]);
    assert Evaluate(ITALY_FRANCE, "or", ts) == Ok(true);
    FilterOne(ITALY_FRANCE, "or", ts, true);
  }

  /** The entry point: `tournament__eq="FIFA World Cup"` keeps the World Cup game,
      the team query run on that result keeps it too, and Italy scored 2 in it. */
  lemma EntryPoint()
    ensures Selection([ITALY_FRANCE, FRANCE_ITALY], [("tournament__eq", "FIFA World Cup")])
            == Ok([ITALY_FRANCE])
    ensures Selection([ITALY_FRANCE],
              [("mode", "or"), ("home_team__eq", "Italy"), ("away_team__eq", "Italy")])
            == Ok([ITALY_FRANCE])
    ensures SumGoals([ITALY_FRANCE], "Italy") == Ok(2)
  {
    TournamentPlan();
    TournamentFilter();
    EitherPlan();
    TeamFilter();
    HomeGoals();
  }

  /** Ordering comparators compare text: "10" sorts before "9". */
  lemma TextOrderOfNumbers()
    ensures Compare(Lt, Some("10"), "9") == Some(true)
  {
  }

  /** `field__token` is rejected as "Invalid Operator" when neither part holds `__`,
      the field does not end in `_` and the token names no comparator. */
  lemma RejectedKey(field: string, token: string, key: string)
    requires forall i :: 0 <= i < |field| ==> field[i] != '_' || i + 1 == |field| || field[i + 1] != '_'
    requires forall i :: 0 <= i < |token| ==> token[i] != '_' || i + 1 == |token| || token[i + 1] != '_'
    requires field != [] && field[|field| - 1] != '_'
    requires Named(token).None?
    requires key == field + SEPARATOR + token
    ensures ParseKey(key) == Err(InvalidOperator(key))
  {
    NoSeparatorIn(field);
    NoSeparatorIn(token);
    ParseKeyRejects(field, token);
  }

  /** `score__between` names no comparator. */
  lemma UnknownOperator()
    ensures ParseKey("score__between") == Err(InvalidOperator("score__between"))
  {
    RejectedKey("score", "between", "score__between");
  }

  /** `a___eq` splits at its first `__` into `a` and `_eq`, so it is rejected too. */
  lemma ThirdUnderscore()
    ensures ParseKey("a___eq") == Err(InvalidOperator("a___eq"))
  {
    RejectedKey("a", "_eq", "a___eq");
  }

  /** `a__b__eq` has one separator too many. */
  lemma TwoSeparators()
    ensures ParseKey("a__b__eq") == Err(UnpackMismatch("a__b__eq"))
  {
    var key := "a__b__eq";
    assert OccursAt(key, SEPARATOR, 1) by { assert key[1..3] == SEPARATOR; }
    assert OccursAt(key, SEPARATOR, 4) by { assert key[4..6] == SEPARATOR; }
    ParseKeyTwoSeparators(key, 1, 4);
  }
}
