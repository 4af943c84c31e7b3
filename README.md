# Warehouse valuation by inverse distance weighting

A Dafny model of the valuation engine of the Soria warehouse evaluation page
(`app.py`). The first row of the data set is the warehouse under evaluation
(the target). Every later row is a candidate comparable. A candidate is kept
when all three of these hold:

- its latitude and longitude are present;
- its geodesic distance to the target is at most the distance limit;
- its total area lies in the inclusive band `target area ± allowed difference`.

The kept rows, in input order, feed an inverse-distance-weighted (IDW)
estimate of the target's unit price. Each comparable gets the raw weight
`1 / d^power` (power 2 by default). The estimate is the weighted average of
the comparables' unit prices, with one exception: a comparable at distance 0
decides the estimate at once. The page estimates only from at least three
comparables. With three or more, it also shows a diagnostics table and the
totals for the target's area.

Files and modules:

- `wrappers.dfy` (`Wrappers`): `Option`.
- `geo.dfy` (`Geo`): points and the distance function. The geodesic
  distance is a function parameter (`Metric`). The model assumes only that
  it is never negative.
- `sums.dfy` (`Sums`): left-to-right `Sum`, the `zip` dot product `Dot`,
  `Pow`, and `Min`/`Max` for stating bounds, with the arithmetic lemmas the
  proofs need.
- `comparables.dfy` (`Comparables`): records, the filter rule (`Qualifies`),
  the comparable set as a function (`Select`), and the loop that builds the
  IDW input lists (`CollectComparables`). The page applies the same rule three
  times: map markers at app.py:89-99, the comparables table at
  app.py:134-143, and the IDW input at app.py:196-207. It is defined once
  here.
- `idw.dfy` (`Idw`): the IDW estimate as a function (`Estimate`), its
  properties, and `idw_interpolation` as a loop with an early return
  (`IdwInterpolation`). The method is proved equal to the function.
- `valuation.dfy` (`Valuation`): the diagnostics table, the deviation, and the
  whole run (`Evaluate`). The run covers the three-comparable guard, the error
  branch, the estimate and the derived totals.

Numbers are Dafny `real`s, so sums and quotients are exact. A missing
coordinate (a NaN in the data frame) is `None`.

## Model

| member | source | states |
|---|---|---|
| `Comparables.SearchCriteria` | app.py:37-48 | The distance limit is the slider value. The area band is `2 × area_difference` wide and centred on the target's area. |
| `Comparables.BandIsSymmetric` | app.py:46-48 | An area is in the band exactly when it differs from the target's area by at most `area_difference`. |
| `Comparables.SelectExactly` | app.py:196-207 | The k-th comparable is made from the row at the k-th selected position. Positions strictly increase, so input order is kept. A row after the first is selected if and only if its coordinates are present, its distance is at most `max_distance` and its area is in `[min_area, max_area]`. Position 0, the target, is never selected. |
| `Comparables.Qualifies` | app.py:197-205 | The keep/drop test for one row: coordinates present, distance to the target at most `max_distance`, area in `[min_area, max_area]`. `SelectExactly` proves that a row after the first is a comparable exactly when this test holds. |
| `Comparables.Select` | app.py:196-213 | The comparable set, built the way the loop appends. It has fewer entries than there are rows, and each comparable carries its geodesic distance to the target, which is within the limit. `SelectExactly` characterises it row by row, and `SelectMonotone` relates it across criteria. |
| `Comparables.SelectMonotone` | app.py:204-205 | For criteria with a larger distance limit and a wider area band, the old comparable set is a subsequence of the new one. |
| `Comparables.FilterMonotoneInSettings` | app.py:28-48 | Raising the distance slider or the area-difference slider never removes a comparable, and the survivors keep their order. |
| `Comparables.CollectComparables` | app.py:192-213 | The loop's `comp_data` list is exactly the comparable set. Its `comp_points` and `comp_values` lists are that set's coordinates and unit prices, position by position. |
| `Sums.Pow` | app.py:181 | A positive distance raised to the power is positive, so `1 / d^power` is defined. |
| `Idw.FirstZero` | app.py:175-178 | Finds the first comparable at distance 0: its distance is 0 and every earlier distance is non-zero. `None` means no distance is 0. |
| `Idw.IndexOf` | app.py:178 | `comp_points.index(point)` is the first position holding that point. |
| `Idw.RawWeights` | app.py:181-182 | There is one raw weight per comparable, and every raw weight is positive. |
| `Idw.ShortcutReturnsFirstCoincident` | app.py:175-178 | If some comparable is at distance 0, the estimate is the value of the first such comparable, with no weighting. |
| `Idw.NormalizedWeightsSumToOne` | app.py:181-186 | With no zero distance and at least one comparable, the total weight is positive, every normalised weight is positive, and the normalised weights sum to 1. |
| `Idw.Normalized` | app.py:186 | One normalised weight per raw weight. `NormalizedWeightsSumToOne` proves that they are positive and sum to 1. |
| `Idw.Estimate` | app.py:175-187 | For any non-empty input, the estimate lies between the smallest and largest comparable value. This holds with and without the zero-distance shortcut. `ShortcutReturnsFirstCoincident` gives the shortcut case, and `IdwInterpolation` is proved equal to it. |
| `Idw.IdwInterpolation` | app.py:163-189 | The loop's result equals `Estimate` of the comparables' distances, values and power. The early return `comp_values[comp_points.index(point)]` is shown to be the value at the first zero distance. |
| `Valuation.WeightShares` | app.py:212-222 | One diagnostics row per comparable, with its address, unit price and distance. Each distance is positive, and each raw weight is `1 / distance^2`. Each percentage share is 100 times the normalised weight that the estimate uses (`Idw.Normalized` of the raw weights). Each weighted unit price is that normalised weight times the comparable's unit price. |
| `Valuation.Percentages` | app.py:221 | One percentage share per raw weight. `PercentagesAreScaled` relates each share to the normalised weight. |
| `Valuation.PercentWeighted` | app.py:222 | One weighted unit price per comparable. `PercentWeightedAreProducts` relates each one to the normalised weight. |
| `Valuation.PercentagesAreScaled` | app.py:220-221 | Each percentage share `w / total × 100` is 100 times the normalised weight `w / total`. |
| `Valuation.PercentWeightedAreProducts` | app.py:221-222 | Each weighted unit price `price × share / 100` is the unit price times the normalised weight. |
| `Valuation.SharesSumTo100` | app.py:219-221 | Before display rounding, the percentage shares of a non-empty table sum to 100. |
| `Valuation.WeightedPricesSumToEstimate` | app.py:219-234 | The weighted unit prices sum to the IDW estimate at the default power, when the table's distances are the comparables' own. |
| `Valuation.Deviation` | app.py:288 | The deviation is defined exactly when the actual unit price is non-zero. It then satisfies `predicted = actual × (1 + deviation / 100)`. |
| `Valuation.Evaluate` | app.py:215-291 | With fewer than 3 comparables, the error branch runs, reports how many were found, and gives no estimate. Otherwise the run returns the comparable set and the IDW estimate over it at power 2, which lies within the comparables' unit-price range. It also returns the target's actual unit price, `predicted_total = predicted × target_area`, `actual_total = actual × target_area` and the deviation. The diagnostics are present exactly when no comparable is at distance 0; then their shares sum to 100 and their weighted unit prices sum to the estimate. |

## Left out

- The Streamlit page: sidebar sliders, data frames, CSS and HTML result blocks. These are display only; the slider values are the parameters of `Evaluate`.
- The folium map (app.py:55-119) and the comparables table (app.py:121-153) are display only. Both use the same rule as `Qualifies`.
- CSV loading and the cleaning of currency strings (app.py:13-20) are I/O and library parsing. Records reach the model already parsed.
- The geodesic distance is a foreign library computation on floats. It is an arbitrary non-negative `Metric`. Its symmetry, its zero on identical points and geopy's rejection of out-of-range latitudes are not modelled.
- A missing target coordinate is not modelled: geopy raises an error for a non-finite point. `CollectComparables` and `Evaluate` therefore require the first row's coordinates.
- Floating point is not modelled: arithmetic is exact on reals. NaN is modelled only for missing coordinates.
- Valuation.WeightShares: the diagnostic raw weight `1/(distance**2)` at app.py:212 has no zero check. A comparable at distance 0 would make the page fail there, before the estimate. The model does not reproduce that failure. `Evaluate` omits the diagnostics (`None`) in that case and still computes the estimate through the shortcut of app.py:177-178.
- Valuation.SharesSumTo100: the page rounds the shares to two decimals (app.py:221) and computes the weighted unit prices from the rounded shares (app.py:222). The model uses the unrounded shares, so its sums are exact. Display formatting (app.py:224-228) is left out.
- Valuation.Deviation: numpy division by a zero actual price yields an infinity or NaN rather than an error. The model returns `None` instead.
- Idw.IdwInterpolation requires `comp_points` and `comp_values` to have equal length, as the only caller guarantees. `zip`'s truncation of unequal lists is not modelled.
- The raw weight column of `comp_data` (app.py:212) is kept in the diagnostics row (`Valuation.Share`), not in `Comparables.Comparable`.
