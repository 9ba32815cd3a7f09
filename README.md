# StockOPT options-sentiment core, modelled in Dafny

This project models the analysis core of `stock_stat.py`. The script reads the call and put tables of one Yahoo Finance options chain and then does the following:

- it coerces the raw table cells to numbers, in place;
- it extracts the expiry date from a contract name;
- it computes totals, the put/call ratio and the most-traded, highest-change and at-the-money rows;
- it derives target prices, an implied-volatility skew and three sentiment flags;
- it picks one strategy label from a priority-ordered if/elif chain.

The model follows the code as written. All arithmetic uses Dafny `real`, which is exact.

Modules, leaf first:

- `Wrappers`: `Option` and `Result`.
- `Decimal`: the numeric text grammar. It accepts an optional sign, digits, and an optional `.` followed by more digits. It also defines `RemoveAll`, which is Python's `str.replace(c, "")`.
- `Cells`: a raw cell, which is text, a number or missing (NaN). It has three coercions: Volume/Open Interest, Implied Volatility, and the plain numeric columns.
- `Stats`: sum, mean, min, max, and first-occurrence `idxmax`/`idxmin`.
- `Table`: the raw `Row` and its normalization. `NormalizeTable` rewrites an `array<Row>` in place. This module also has the numeric `Quote`, sorting by strike, and the median strike.
- `Expiry`: `extract_expiry_date`.
- `OiRange`: `get_oi_range`, with a running sum of open interest.
- `Sentiment`: the put/call ratio, the sentiment flags, and the strategy chain.
- `Analysis`: the report values of `parse_options_data`, plus `ParseOptionsData`. That method normalizes both caller-owned tables in place and then runs the analysis.

Notes on what the code as written does:

- `bearish` compares the most-traded call strike with the most-traded put strike. It does not compare mean volumes.
- `high_iv` compares mean call IV with mean put IV.
- The chain has six labelled branches and a neutral default. It has no ratio bands, and bullish and bearish may both hold.
- `get_oi_range` has no fallback. An empty filter yields NaN, modelled as `None`.
- There is no reliability score, no weighted "box" strike and no liquidity error.

## Model

| member | source | states |
|---|---|---|
| Decimal.RemoveAll | stock_stat.py:75 | every occurrence of the character is gone, and a string without it is returned unchanged |
| Decimal.RemoveAllConcat | stock_stat.py:75 | removing from a concatenation removes from each part and keeps the parts in order, so the kept characters keep their order |
| Decimal.RemoveAllCounts | stock_stat.py:75 | every other character keeps its count, and the removed character's count is 0 |
| Decimal.RemoveCommasExample | stock_stat.py:75 | removing the commas from "1,234" gives "1234", not a reordering of it |
| Decimal.NatStringRoundTrip | stock_stat.py:75-82 | parsing the decimal rendering of any natural number, with or without a minus sign, gives that number back |
| Decimal.DecimalRoundTrip | stock_stat.py:76-82 | parsing w.f, with the fraction written as k digits, gives w + f / 10^k back, with or without a minus sign |
| Decimal.CommaIsNotNumber | stock_stat.py:77 | text that contains a comma is never a number |
| Cells.CoerceCount | stock_stat.py:75 | a lone "-" and a missing cell become 0; a number stays as it is |
| Cells.CountIgnoresCommas | stock_stat.py:75 | Volume/Open Interest coercion gives the same value with or without thousands commas |
| Cells.CountOfRenderedNumber | stock_stat.py:78 | a count written as plain digits, optionally negative, coerces to its value |
| Cells.UnparsableCountIsZero | stock_stat.py:78 | a count that does not parse after comma removal becomes 0, never a missing value |
| Cells.CoerceIv | stock_stat.py:76 | a missing IV cell becomes 0; a number stays as it is; text that does not parse once every '%' is removed becomes 0, never a missing value |
| Cells.IvIgnoresPercent | stock_stat.py:76 | every '%' is removed before the IV is parsed |
| Cells.IvOfPercentage | stock_stat.py:76 | "n%" coerces to n |
| Cells.IvOfDecimalPercentage | stock_stat.py:76 | a fractional percentage such as "25.43%" coerces to 25 + 43 / 100 |
| Cells.PriceOfRenderedDecimal | stock_stat.py:77-82 | a Last Price/Bid/Ask/Change written as a signed decimal coerces to its value |
| Cells.CoerceNumber | stock_stat.py:77-82 | a missing Last Price/Bid/Ask/Change cell becomes 0; a number stays as it is; text that does not parse becomes 0, never a missing value |
| Cells.DashNumberIsZero | stock_stat.py:77-82 | a lone "-" in Last Price, Bid, Ask or Change is not special-cased but still becomes 0, because it does not parse |
| Cells.CommaPriceIsZero | stock_stat.py:77 | Last Price/Bid/Ask/Change text with a thousands comma coerces to 0, because those columns are not stripped of commas |
| Table.NormalizeRow | stock_stat.py:74-82 | Volume and Open Interest are the count coercion of their old cells, IV the percentage coercion, Last Price, Bid, Ask and Change the plain coercion; name and strike are kept; the spread is \|Ask - Bid\| of the new values and never negative |
| Table.NormalizeRowIdempotent | stock_stat.py:74-82 | normalizing a normalized row changes nothing |
| Table.NormalizedRowIsFixed | stock_stat.py:74-82 | a row that already holds numbers and a consistent spread is a fixed point of normalization |
| Table.NormalizeRowsIdempotent | stock_stat.py:74-82 | normalizing a whole table twice equals normalizing it once |
| Table.NormalizeTable | stock_stat.py:74-82 | in place, each row of the array becomes the normalization of its old value |
| Table.SortByStrike | stock_stat.py:57 | the result is in ascending strike order and is a permutation of the rows |
| Table.MedianStrike | stock_stat.py:88 | the median call strike lies between the smallest and the largest call strike |
| Table.MedianOfThreeStrikes | stock_stat.py:87-88 | call strikes 90, 100 and 110, in any table order, give the median 100 |
| Stats.FirstArgMax | stock_stat.py:96-103 | the index holds a maximum value, and every earlier value is strictly smaller (first occurrence) |
| Stats.FirstArgMin | stock_stat.py:106-111 | the index holds a minimum value, and every earlier value is strictly larger (first occurrence) |
| Stats.MinOf | stock_stat.py:65 | the result is an element of the column and no larger than any element |
| Stats.MaxOf | stock_stat.py:65 | the result is an element of the column and no smaller than any element |
| Stats.ZeroSumOfNonNegative | stock_stat.py:59 | a non-negative column that sums to 0 holds only zeros |
| Stats.MeanBetweenBounds | stock_stat.py:105 | a column mean lies between its minimum and maximum |
| Analysis.AvgStrikeWithinStrikes | stock_stat.py:105 | the report's average strike lies between the mean of the two tables' lowest strikes and the mean of their highest strikes |
| Expiry.FirstSixDigitsFrom | stock_stat.py:36 | the result is the leftmost start of six consecutive digits, or None when there is no such run |
| Expiry.FormatDate | stock_stat.py:39 | the result is "20", YY, "-", MM, "-", DD, character by character |
| Expiry.ExtractExpiryDate | stock_stat.py:32-40 | with no six-digit run the result is "N/A"; otherwise it is the leftmost run formatted as a date: 10 characters, '-' at positions 4 and 7, digits elsewhere |
| Expiry.DigitsGiveDate | stock_stat.py:36-39 | any six-digit run in the name yields a 10-character date, not "N/A" |
| Expiry.AppleCallExample | stock_stat.py:32-40 | "AAPL250117C00150000" gives "2025-01-17" |
| OiRange.RunningSums | stock_stat.py:58 | the i-th running total is the start value plus the sum of the first i+1 values |
| OiRange.RunningSumsMonotone | stock_stat.py:58 | with no negative open interest, the running totals never decrease |
| OiRange.KeptRowsArePrefix | stock_stat.py:57-62 | with no negative open interest, the kept rows are a prefix of the sorted order: exactly the rows whose running total is within threshold × total |
| OiRange.OiRangeOfAnyOrder | stock_stat.py:57-65 | for every ascending order among equal strikes: if any row is kept, min is the chain's smallest strike, min ≤ max, and both are strikes of the chain |
| OiRange.ZeroOpenInterestKeepsAll | stock_stat.py:59-65 | with zero open interest every row is kept, and the range is the chain's smallest and largest strike |
| OiRange.ThresholdBelowOneDropsLast | stock_stat.py:58-62 | with threshold < 1 and positive total open interest, the last sorted row is never kept |
| OiRange.TotalZeroKeepsAll | stock_stat.py:59-65 | when open interest is never negative and adds up to 0, every row of the sorted table passes the cumulative filter, and the range is the table's full strike range |
| OiRange.TotalZeroKeepsEveryRow | stock_stat.py:59-62 | when open interest is never negative and adds up to 0, every row passes the cumulative filter, whatever order the rows are in |
| OiRange.GetOiRangeBounds | stock_stat.py:53-65 | what `get_oi_range` returns: the bounds above for its own sort, and the full strike range when open interest is all zero |
| Sentiment.PutCallRatio | stock_stat.py:94 | the ratio is infinite exactly when total call volume ≤ 0; otherwise ratio × call volume = put volume, and the ratio is non-negative for non-negative put volume |
| Sentiment.Decide | stock_stat.py:140-159 | \|skew\| ≤ 2 gives neutral; buy labels need bullish and skew < -2; sell labels need not-bullish and skew > 2; "매수 신호" needs bullish and bearish; "일반 매도" needs not-bearish |
| Sentiment.DecideMatchesGuards | stock_stat.py:148-159 | the chain chooses a label if and only if that label's independent, non-overlapping guard holds |
| Sentiment.NoCallVolumeIsNotBullish | stock_stat.py:125 | with total call volume ≤ 0 the sentiment is never bullish |
| Sentiment.BullishMeansMoreCallVolume | stock_stat.py:125 | bullish sentiment implies total put volume is strictly below a positive total call volume |
| Analysis.CurrentPrice | stock_stat.py:87-90 | a quoted price is used as it is; without one the price lies between the smallest and largest call strike |
| Analysis.MinTargetPrice | stock_stat.py:117-120 | with volatility ≥ 0 and price ≥ 0, the clamped minimum target is at most the current price and at most the discounted target |
| Analysis.MaxTargetPrice | stock_stat.py:121 | with target ≥ 0 and volatility ≥ 0 the maximum target is at least the target |
| Analysis.TargetsOrdered | stock_stat.py:117-121 | with non-negative target, price and volatility, min target ≤ max target |
| Analysis.BoxLow | stock_stat.py:131-135 | no OI range stays no value (NaN); otherwise the result is the larger of the range's low end and the most-traded put strike |
| Analysis.BoxHigh | stock_stat.py:132-136 | no OI range stays no value (NaN); otherwise the result is the smaller of the range's high end and the most-traded call strike |
| Analysis.BuildReport | stock_stat.py:84-159 | every report value is tied to the tables: the expiry date of the first call, the price fallback, the volume totals and their ratio, the first most-traded, highest-change and ATM rows, the skew of the ATM rows, the mean-strike target, the volatility and both targets, the three flags, the mean IV, both box ends and the chosen label and its text |
| Analysis.ReportInvariants | stock_stat.py:87-159 | for any tables: the price fallback lies within the call strikes; the ratio is infinite iff call volume ≤ 0, and then the report is not bullish; every label but neutral needs \|skew\| > 2, buy labels bullish and a negative skew, sell labels the opposite; min target ≤ price; the box ends are clamped by the most-traded strikes |
| Analysis.Analyze | stock_stat.py:84-159 | the analysis fails exactly when a table is empty (an empty call table first, then an empty put table); otherwise it succeeds with the report `BuildReport` specifies |
| Analysis.ParseOptionsData | stock_stat.py:67-159 | a missing table gives an error and changes nothing; otherwise both tables are normalized in place (aliasing included) and the result is the analysis of the normalized rows |

## Left out

- `fetch_options_data` (the HTTP request and HTML table parsing) is network I/O and is not modelled. A table that was not fetched arrives as `null`.
- `get_current_price` (a yfinance call and `round(price, 2)`) becomes the parameter `PriceLookup`: either a quoted price or "N/A".
- The Tkinter GUI (`show_report_window`, `show_report`, the window setup) and the report f-string are presentation only. The f-string's `:.2f`/`:.1f` float formatting is not modelled; only the strategy label texts are kept (`Sentiment.Message`, carried in the report as `strategyText`).
- Numeric parsing is limited to an optional sign, ASCII digits and one optional decimal point. Whitespace, exponents, "inf", "nan" and Unicode digits are treated as unparsable. The contract-name pattern likewise matches ASCII digits only.
- IEEE floating point is replaced by exact `real` arithmetic. NaN appears only as `None` for the empty open-interest filter. A number cell is taken to read back as itself after `astype(str)`.
- Every row has every column, and the strike is always a number. A missing column (a `KeyError`) and a non-string contract name are not modelled.
- The source coerces column by column; `NormalizeTable` coerces row by row. Every cell is coerced on its own, so the resulting table is the same.
- An empty call table or an empty put table makes the script raise (`iloc[0]` at line 84, `idxmax` at line 97). The model does not raise; `Analysis.Analyze` returns `EmptyCallTable` or `EmptyPutTable` instead.
- Rows are addressed by position, which matches the default integer index that the HTML reader produces.
- OiRange.GetOiRange: fixes one order among equal strikes, namely the insertion sort's. The source's sort is not stable, so its properties are stated for every ascending order in `OiRange.OiRangeOfAnyOrder`.
