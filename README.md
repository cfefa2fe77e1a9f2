# kaggle_reader, modelled in Dafny

A model of the query engine and record source of `kaggle_reader_slow.py`:
a small reader for a CSV file of international football results. Each
game is a dictionary from column name to cell text. Games are selected with
keyword queries such as `home_team__eq="Italy"`, and the goals a team
scored are added up over the selected games.

The model is split into these modules:

- `Wrappers`: `Option` and `Result`, and `Prepend`. `Prepend` puts a
  prefix before a list that may be an error.
- `Seqs`: `Keep`, the reference order-preserving filter, and its algebra.
  The algebra covers membership, concatenation, idempotence, and
  composition of two filters into one filter by both predicates.
- `Strings`: the parts of Python's `str` the reader relies on:
  - `sep in s`;
  - `s.split(sep)`: leftmost and non-overlapping;
  - `sep.join(parts)`;
  - `s.count(c)`;
  - the lexicographic `<`.
- `Comparators`: the six functions of Python's `operator` module that a
  query may name. A missing field (`el.get(k)` is None) is handled as
  Python does:
  - `eq` gives False and `ne` gives True;
  - the four orderings raise, which the model returns as an error.
- `Compiler`: `operators_reader`. Each key `field` or `field__op` becomes
  a triple `(op, field, target)`. Two cases raise:
  - an operator token that is not one of the six names;
  - a key that `split('__')` cuts into more than two parts.
- `Query`: `selector` and `select`.
  - `selector` is the `while` loop in `Query.Selector`. It is proved against
    the function `Evaluate`.
  - `select` pops `mode` (default `'or'`), compiles the rest and walks the
    records. It is `Query.Select`, proved against the function `Selection`.
- `Records`: the row type (field name to cell text), `row_splitter`, and
  the header/row zipping of `generate_games`, over lines that have already
  been read.
- `Goals`: `team_goals` and `sum_goals`. The `reduce` is a left fold
  in which the first error raised wins.
- `Scenarios`: worked examples on two concrete games.
  - A header line and a data line become the first game's record.
  - The entry point's two chained queries: `tournament__eq="FIFA World Cup"`,
    then the `mode="or"` team query on its result.
  - A further query, `home_team__eq="Italy"`, which the entry point does not run.
  - A few keys that compile or fail to compile.

Python exceptions become `Err` values of a `Result`:

- `CompileError`: "Invalid Operator", or a failed tuple unpacking.
- `SelectError`: a compile failure, or a `TypeError` from ordering against a
  missing field.
- `SourceError`: `pop(0)` on a file with no lines.
- `GoalsError`: `KeyError` or `ValueError` in `team_goals`.

All cell and query values are strings, so every comparison is between
strings. For example, `"10" < "9"` holds (`Scenarios.TextOrderOfNumbers`).

## Model

| member | source | states |
|---|---|---|
| Strings.FirstOccurrenceLeftmost | kaggle_reader/kaggle_reader_slow.py:49-50 | the occurrence of `__` that the split cuts at is the leftmost one, and None means the key holds no `__` at all |
| Strings.SplitOnePart | kaggle_reader/kaggle_reader_slow.py:49-50 | `split(sep)` gives a single part exactly when `sep in s` is false, and that part is the whole string |
| Strings.SplitTwoOccurrences | kaggle_reader/kaggle_reader_slow.py:50 | two non-overlapping occurrences of the separator give at least three parts |
| Strings.SplitJoin | kaggle_reader/kaggle_reader_slow.py:93 | joining the parts of `s.split(sep)` with `sep` gives back `s` |
| Strings.SplitPartsFree | kaggle_reader/kaggle_reader_slow.py:93 | no part of a split contains the separator |
| Strings.SplitCharCount | kaggle_reader/kaggle_reader_slow.py:93 | splitting on one character gives one more part than the character's count in the string |
| Strings.SplitCons | kaggle_reader/kaggle_reader_slow.py:93 | splitting on a character that does not occur in the text before it cuts that text off as the first part and splits the rest |
| Strings.JoinSplit | kaggle_reader/kaggle_reader_slow.py:93 | splitting parts joined with a character none of them holds gives the parts back |
| Strings.LexTrichotomy | kaggle_reader/kaggle_reader_slow.py:58 | for string `<`, exactly one of `a < b`, `a == b` and `b < a` holds |
| Strings.LexTransitive | kaggle_reader/kaggle_reader_slow.py:58 | string `<` is transitive |
| Comparators.Named | kaggle_reader/kaggle_reader_slow.py:52 | a token is accepted exactly when it is one of `lt, le, eq, ne, ge, gt`, and it names the comparator it spells |
| Comparators.NamedName | kaggle_reader/kaggle_reader_slow.py:52-58 | looking a comparator up by its own name gives it back |
| Comparators.Compare | kaggle_reader/kaggle_reader_slow.py:23 | `op(el.get(k), v)`: with the field missing, `eq` is False, `ne` is True and the orderings raise; with the field present, every comparator answers and `eq` is string equality |
| Comparators.CompareComplements | kaggle_reader/kaggle_reader_slow.py:58 | on a present value, `ne`, `ge` and `gt` negate `eq`, `lt` and `le`, and exactly one of `lt`, `eq` and `gt` holds |
| Comparators.CompareConverse | kaggle_reader/kaggle_reader_slow.py:58 | swapping the operands swaps `lt` with `gt` and `le` with `ge` |
| Comparators.CompareLeTransitive | kaggle_reader/kaggle_reader_slow.py:58 | `le` is transitive |
| Compiler.ParseKey | kaggle_reader/kaggle_reader_slow.py:49-56 | a key without `__` compiles to `eq` on the whole key; an accepted key with `__` is `field + "__" + name` of its comparator, with a field free of `__`; a rejected key always contains `__` |
| Compiler.ParseKeyRoundTrip | kaggle_reader/kaggle_reader_slow.py:49-58 | `field__op` compiles back to `op` and `field` whenever `field` holds no `__` and does not end in `_` |
| Compiler.SplitFieldToken | kaggle_reader/kaggle_reader_slow.py:50 | `split('__')` of such a `field__token` unpacks into exactly `field` and `token` |
| Compiler.ParseKeyRejects | kaggle_reader/kaggle_reader_slow.py:50-53 | `field__token` with a token naming no comparator raises "Invalid Operator"; this includes the empty token |
| Compiler.ParseKeyTwoSeparators | kaggle_reader/kaggle_reader_slow.py:50 | a key with two separate `__` fails to unpack, whatever the tokens |
| Compiler.CompileSpec | kaggle_reader/kaggle_reader_slow.py:47-62 | compilation succeeds iff every key compiles. It then gives one triple per key, in key order, holding that key's comparator, field and value. Otherwise it fails with the error of the first failing key and returns no partial list |
| Compiler.OperatorsReader | kaggle_reader/kaggle_reader_slow.py:32-62 | the loop over the keys, with the `'__' in kw` test, the split and the name check in its body, returns exactly `Compile(kwargs)` |
| Query.FoldSpec | kaggle_reader/kaggle_reader_slow.py:22-28 | from an accumulator, the loop raises iff some comparison raises; otherwise it or-s the accumulator with "some triple holds" under `'or'`, and and-s it with "every triple holds" under any other mode |
| Query.EvaluateSpec | kaggle_reader/kaggle_reader_slow.py:15-29 | `selector` raises iff some comparison raises; otherwise under `'or'` it is true iff some triple holds, and under any other mode iff every triple holds |
| Query.EvaluateOrderIrrelevant | kaggle_reader/kaggle_reader_slow.py:20-28 | reordering or repeating triples changes neither whether `selector` raises nor its answer |
| Query.EvaluateAllEq | kaggle_reader/kaggle_reader_slow.py:20-28 | under a mode other than `'or'`, a list of `eq` triples never raises, and it matches exactly the records that hold every named field with its target |
| Query.Selector | kaggle_reader/kaggle_reader_slow.py:15-29 | the loop computes `Evaluate`. It is False under `'or'` and True otherwise on an empty list, and it satisfies the characterisation of `EvaluateSpec` |
| Query.FilterSpec | kaggle_reader/kaggle_reader_slow.py:78-84 | the record loop raises iff some record's evaluation raises; otherwise it keeps exactly the matching records, in their order |
| Query.Lookup | kaggle_reader/kaggle_reader_slow.py:75 | a value found for a key is one of that key's entries; nothing found means no entry has that key |
| Query.PopModeSpec | kaggle_reader/kaggle_reader_slow.py:75 | `mode` never reaches the compiler while every other key does. The mode defaults to `'or'`, and otherwise it is a value given for `mode` |
| Query.KeepMatching | kaggle_reader/kaggle_reader_slow.py:78-84 | the loop over the records that appends each accepted one returns exactly `Filter`, which `FilterSpec` ties to `Keep` |
| Query.Select | kaggle_reader/kaggle_reader_slow.py:65-84 | pop, compile, then the loop over the records: the result is exactly `Selection(records, kwargs)` |
| Query.SelectEmptyQuery | kaggle_reader/kaggle_reader_slow.py:75-84 | a query that is only `mode` selects nothing under `'or'` and every record, in order, under any other mode |
| Query.SelectIdempotent | kaggle_reader/kaggle_reader_slow.py:78-84 | selecting again with the same query changes nothing |
| Query.SelectChain | kaggle_reader/kaggle_reader_slow.py:140-148 | chaining two selections keeps, in order, exactly the records matching both queries |
| Records.RowSplitter | kaggle_reader/kaggle_reader_slow.py:87-93 | joining the cells with `,` and adding back the dropped last character gives the row. No cell holds a comma, and there is one cell more than there are commas in the shortened row; the empty row gives one empty cell |
| Records.RowSplitterJoin | kaggle_reader/kaggle_reader_slow.py:87-93 | a row written as comma-free cells joined with `,` plus one final character splits back into exactly those cells |
| Records.ZipSnoc | kaggle_reader/kaggle_reader_slow.py:115 | zipping one more column and cell onto lists of equal length adds that entry last, overriding an earlier one |
| Records.ZipStep | kaggle_reader/kaggle_reader_slow.py:115 | zipping the first `k + 1` positions is zipping the first `k` and then inserting position `k` |
| Records.ZipSpec | kaggle_reader/kaggle_reader_slow.py:115 | `dict(zip(columns, cells))` has exactly the columns that got a cell. Zipping stops at the shorter list, and each column maps to the cell at its last position |
| Records.ZipDistinct | kaggle_reader/kaggle_reader_slow.py:115 | with distinct column names, each column that got a cell maps to its own cell |
| Records.GenerateGames | kaggle_reader/kaggle_reader_slow.py:104-116 | it fails iff there are no lines. Otherwise there is one record per line after the header, in order, each zipping the header's cells with that line's cells |
| Goals.ParseInt | kaggle_reader/kaggle_reader_slow.py:121-122 | the model's `int(s)` succeeds exactly on non-empty runs of ASCII decimal digits |
| Goals.ParseIntDecimal | kaggle_reader/kaggle_reader_slow.py:121-122 | parsing the decimal text of a number gives the number back |
| Goals.TeamGoals | kaggle_reader/kaggle_reader_slow.py:119-122 | a game without `home_team` raises KeyError. Otherwise the score taken is `home_score` when `game["home_team"] == team` and `away_score` otherwise; if that score is missing it raises KeyError, if it is not a number it raises ValueError, and otherwise the result is its value |
| Goals.TeamGoalsDecimal | kaggle_reader/kaggle_reader_slow.py:119-122 | with numeric scores, the team gets the home score exactly when it is the home team, and the away score otherwise |
| Goals.SumGoalsSingle | kaggle_reader/kaggle_reader_slow.py:125-126 | no games sum to 0, and one game sums to its `team_goals` |
| Goals.SumGoalsAppend | kaggle_reader/kaggle_reader_slow.py:125-126 | the sum over a concatenation is the sum of the two sums, and the first error raised wins |
| Goals.SumFromShift | kaggle_reader/kaggle_reader_slow.py:126 | folding from an accumulator is adding the accumulator to the fold from 0 |
| Goals.SumFromAppend | kaggle_reader/kaggle_reader_slow.py:126 | folding over a concatenation is folding the second part from the result of the first |
| Scenarios.HeaderColumns | kaggle_reader/kaggle_reader_slow.py:111 | the header line `home_team,away_team,home_score,away_score,tournament` plus a newline splits into those five column names |
| Scenarios.LineCells | kaggle_reader/kaggle_reader_slow.py:114-115 | the data line `Italy,France,2,1,FIFA World Cup` plus a newline splits into those five cells |
| Scenarios.ZipGame | kaggle_reader/kaggle_reader_slow.py:115 | zipping those columns with those cells gives the Italy-France record |
| Scenarios.HeaderAndLine | kaggle_reader/kaggle_reader_slow.py:104-116 | the header line and the data line together give the Italy-France record |
| Scenarios.TournamentKey | kaggle_reader/kaggle_reader_slow.py:137 | `tournament__eq` compiles to equality on `tournament` |
| Scenarios.EntryPoint | kaggle_reader/kaggle_reader_slow.py:136-148 | the tournament query keeps only the World Cup game; the team query run on that result keeps it; Italy scored 2 in it |
| Scenarios.HomeTeamKey | kaggle_reader/kaggle_reader_slow.py:144 | `home_team__eq` compiles to equality on `home_team` |
| Scenarios.AwayTeamKey | kaggle_reader/kaggle_reader_slow.py:145 | `away_team__eq` compiles to equality on `away_team` |
| Scenarios.HomeGamesOnly | kaggle_reader/kaggle_reader_slow.py:65-84 | a query the entry point does not run, `home_team__eq="Italy"`, keeps only Italy's home game, in which Italy scored 2 |
| Scenarios.EitherSide | kaggle_reader/kaggle_reader_slow.py:142-148 | the team query run on both games, not only on the World Cup one, keeps both, and Italy's goals add up to 5 |
| Scenarios.TextOrderOfNumbers | kaggle_reader/kaggle_reader_slow.py:58 | ordering comparators compare text, so `"10" < "9"` |
| Scenarios.UnknownOperator | kaggle_reader/kaggle_reader_slow.py:52-53 | `score__between` raises "Invalid Operator" |
| Scenarios.ThirdUnderscore | kaggle_reader/kaggle_reader_slow.py:50-53 | `a___eq` splits into `a` and `_eq`, and so raises "Invalid Operator" |
| Scenarios.TwoSeparators | kaggle_reader/kaggle_reader_slow.py:50 | `a__b__eq` fails to unpack |

## Left out

- `csv_reader` and the `__main__` block are left out because they read a file and print. `Records.GenerateGames` takes the lines that have already been read, and `Scenarios` restates the two queries of the entry point.
- Values of other types are not modelled. Query targets and record values are strings only. Python would also allow numbers and compare them across types (`Any`).
- Comparing a missing field with an ordering raises `TypeError` in Python. The model returns this as the error `Unorderable(field)`; the exception text is not modelled.
- Exception messages are left out: errors are constructors, not text.
- `Comparators.Compare`: it does not model `op` on values other than a missing value and a string, because all values are strings here.
- `Goals.ParseInt`: it accepts only non-empty runs of ASCII decimal digits. Python's `int()` also accepts a sign, surrounding whitespace, underscores between digits and other Unicode digits. All of these give a ValueError in the model.
- `Goals.TeamGoals`: a score is a number only when `Goals.ParseInt` accepts it, so it inherits the restriction above.
- Keyword arguments are a sequence of key/value pairs in call order. Python cannot pass the same keyword twice; the model allows it, and it reads `mode` from its first entry and drops every `mode` entry.
- `Records.RowSplitter` drops the last character of every row, as `row[:-1]` does, whether or not that character is a newline. A last line of the file without a trailing newline therefore loses its last character; the model keeps this behaviour.
- Python's lazy iterators are modelled as sequences. `select`, `generate_games` and `sum_goals` return or take lists.
